/** The text logic both listeners share.

    `Replace` is placeholder substitution as `String::insert($s, [$key => $v],
    ['before' => '{', 'after' => '}'])` performs it for one key: every
    occurrence of `{key}` is replaced by the value, scanning left to right
    without overlaps. `Split` and `Join` are PHP's `explode` and `implode` with
    a non-empty separator; `Split` is also how `Hash::get` cuts a dotted path. */
module Strings {

  /** `p` is a prefix of `s`. */
  predicate StartsWith(s: string, p: string)
  {
    |p| <= |s| && s[..|p|] == p
  }

  /** `p` occurs somewhere in `s`. */
  predicate Occurs(s: string, p: string)
  {
    exists i :: 0 <= i <= |s| && StartsWith(s[i..], p)
  }

  /** Replaces every occurrence of `pat` in `s` by `val`, leftmost first. */
  function Replace(s: string, pat: string, val: string): (r: string)
    requires pat != []
    ensures |s| < |pat| ==> r == s
    decreases |s|
  {
    if s == [] then []
    else if StartsWith(s, pat) then val + Replace(s[|pat|..], pat, val)
    else [s[0]] + Replace(s[1..], pat, val)
  }

  /** The placeholder for `key` with the delimiters `{` and `}`. */
  function Placeholder(key: string): (p: string)
    ensures |p| == |key| + 2 && p[0] == '{' && p[|p| - 1] == '}'
    ensures p[1..|p| - 1] == key
  {
    "{" + key + "}"
  }

  /** `String::insert` with one key and the delimiters `{` and `}`. */
  function Insert(s: string, key: string, val: string): (r: string)
    ensures |s| < |key| + 2 ==> r == s
  {
    Replace(s, Placeholder(key), val)
  }

  /** `explode(sep, s)`: the pieces of `s` between the leftmost non-overlapping
      occurrences of `sep`. There is always at least one piece. */
  function Split(s: string, sep: string): (parts: seq<string>)
    requires sep != []
    ensures |parts| >= 1
    decreases |s|
  {
    if s == [] then [[]]
    else if StartsWith(s, sep) then [[]] + Split(s[|sep|..], sep)
    else
      var rest := Split(s[1..], sep);
      [[s[0]] + rest[0]] + rest[1..]
  }

  /** `implode(sep, parts)`. */
  function Join(parts: seq<string>, sep: string): (s: string)
    requires |parts| >= 1
    decreases |parts|
  {
    if |parts| == 1 then parts[0] else parts[0] + sep + Join(parts[1..], sep)
  }

  // ---------------------------------------------------------------------------
  // Replace against the reference definition implode(val, explode(pat, s))

  /** Prefixing a character to the first piece prefixes it to the joined text. */
  lemma {:induction false} JoinExtendFirst(c: char, parts: seq<string>, sep: string)
    requires |parts| >= 1
    ensures Join([[c] + parts[0]] + parts[1..], sep) == [c] + Join(parts, sep)
  {
    var ext := [[c] + parts[0]] + parts[1..];
    if |parts| > 1 {
      assert ext[1..] == parts[1..];
    }
  }

  /** Substitution is the same as cutting the text at every placeholder and
      gluing the pieces back together with the value in between. */
  lemma {:induction false} ReplaceIsJoinOfSplit(s: string, pat: string, val: string)
    requires pat != []
    ensures Replace(s, pat, val) == Join(Split(s, pat), val)
    decreases |s|
  {
    if s == [] {
    } else if StartsWith(s, pat) {
      ReplaceIsJoinOfSplit(s[|pat|..], pat, val);
      var rest := Split(s[|pat|..], pat);
      assert ([[]] + rest)[1..] == rest;
    } else {
      ReplaceIsJoinOfSplit(s[1..], pat, val);
      JoinExtendFirst(s[0], Split(s[1..], pat), val);
    }
  }

  /** Substituting the placeholder by itself changes nothing. */
  lemma {:induction false} ReplaceBySelf(s: string, pat: string)
    requires pat != []
    ensures Replace(s, pat, pat) == s
    decreases |s|
  {
    if s == [] {
    } else if StartsWith(s, pat) {
      ReplaceBySelf(s[|pat|..], pat);
      assert s == s[..|pat|] + s[|pat|..];
    } else {
      ReplaceBySelf(s[1..], pat);
      assert s == [s[0]] + s[1..];
    }
  }

  /** implode(sep, explode(sep, s)) == s. */
  lemma SplitJoinRoundTrip(s: string, sep: string)
    requires sep != []
    ensures Join(Split(s, sep), sep) == s
  {
    ReplaceIsJoinOfSplit(s, sep, sep);
    ReplaceBySelf(s, sep);
  }

  // ---------------------------------------------------------------------------
  // Texts without the placeholder

  /** A suffix of a text without `p` has no `p` either. */
  lemma NoOccurrenceInSuffix(s: string, p: string, k: nat)
    requires k <= |s| && !Occurs(s, p)
    ensures !Occurs(s[k..], p)
  {
    forall i | 0 <= i <= |s[k..]|
      ensures !StartsWith(s[k..][i..], p)
    {
      assert s[k..][i..] == s[k + i..];
    }
  }

  /** A text without the placeholder comes through unchanged. */
  lemma {:induction false} ReplaceWithoutOccurrence(s: string, pat: string, val: string)
    requires pat != [] && !Occurs(s, pat)
    ensures Replace(s, pat, val) == s
    decreases |s|
  {
    if s != [] {
      assert s[0..] == s;
      NoOccurrenceInSuffix(s, pat, 1);
      ReplaceWithoutOccurrence(s[1..], pat, val);
    }
  }

  /** explode on a text without the separator yields that one text. */
  lemma {:induction false} SplitWithoutOccurrence(s: string, sep: string)
    requires sep != [] && !Occurs(s, sep)
    ensures Split(s, sep) == [s]
    decreases |s|
  {
    if s != [] {
      assert s[0..] == s;
      NoOccurrenceInSuffix(s, sep, 1);
      SplitWithoutOccurrence(s[1..], sep);
      assert [s[0]] + s[1..] == s;
    }
  }

  /** A text in which the first character of `p` never appears has no `p`. */
  lemma NoOccurrenceWithoutFirstChar(s: string, p: string)
    requires p != [] && p[0] !in s
    ensures !Occurs(s, p)
  {
    forall i | 0 <= i <= |s|
      ensures !StartsWith(s[i..], p)
    {
      if i < |s| {
        assert s[i] in s;
      }
    }
  }

  // ---------------------------------------------------------------------------
  // Every piece explode returns is free of the separator

  /** The first piece is a prefix of the text. */
  lemma {:induction false} FirstPieceIsPrefix(s: string, sep: string)
    requires sep != []
    ensures StartsWith(s, Split(s, sep)[0])
    decreases |s|
  {
    if s != [] && !StartsWith(s, sep) {
      FirstPieceIsPrefix(s[1..], sep);
    }
  }

  /** Whatever starts a prefix of `s` starts `s`. */
  lemma StartsWithPrefix(s: string, q: string, p: string)
    requires StartsWith(s, q) && StartsWith(q, p)
    ensures StartsWith(s, p)
  {
    assert s[..|p|] == q[..|p|];
  }

  /** A text without any `{` has no placeholder, so `Insert` leaves it as it is. */
  lemma InsertWithoutBrace(s: string, key: string, val: string)
    requires '{' !in s
    ensures Insert(s, key, val) == s
  {
    NoOccurrenceWithoutFirstChar(s, Placeholder(key));
    ReplaceWithoutOccurrence(s, Placeholder(key), val);
  }

  /** No piece that `Split` returns contains the separator. */
  lemma {:induction false} PiecesHaveNoSeparator(s: string, sep: string)
    requires sep != []
    ensures forall k :: 0 <= k < |Split(s, sep)| ==> !Occurs(Split(s, sep)[k], sep)
    decreases |s|
  {
    var parts := Split(s, sep);
    if s == [] {
      assert parts == [[]];
      forall i | 0 <= i <= 0 ensures !StartsWith(parts[0][i..], sep) { }
    } else if StartsWith(s, sep) {
      PiecesHaveNoSeparator(s[|sep|..], sep);
      var rest := Split(s[|sep|..], sep);
      assert parts == [[]] + rest;
      forall k | 0 <= k < |parts| ensures !Occurs(parts[k], sep) {
        if k == 0 {
          forall i | 0 <= i <= 0 ensures !StartsWith(parts[0][i..], sep) { }
        } else {
          assert parts[k] == rest[k - 1];
        }
      }
    } else {
      PiecesHaveNoSeparator(s[1..], sep);
      FirstPieceIsPrefix(s[1..], sep);
      var rest := Split(s[1..], sep);
      var first := [s[0]] + rest[0];
      assert parts == [first] + rest[1..];
      assert StartsWith(s, first);
      forall k | 0 <= k < |parts| ensures !Occurs(parts[k], sep) {
        if k == 0 {
          forall i | 0 <= i <= |first| ensures !StartsWith(first[i..], sep) {
            if i == 0 {
              if StartsWith(first, sep) {
                StartsWithPrefix(s, first, sep);
              }
            } else {
              assert first[i..] == rest[0][i - 1..];
              assert !Occurs(rest[0], sep);
            }
          }
        } else {
          assert parts[k] == rest[k];
        }
      }
    }
  }

  // ---------------------------------------------------------------------------
  // When the placeholder is gone after substitution

  /** Every `{` of `s` opens an occurrence of `pat`. */
  ghost predicate BracesOpenOnly(s: string, pat: string)
  {
    forall i :: 0 <= i < |s| && s[i] == '{' ==> StartsWith(s[i..], pat)
  }

  lemma BracesOpenOnlySuffix(s: string, pat: string, k: nat)
    requires k <= |s| && BracesOpenOnly(s, pat)
    ensures BracesOpenOnly(s[k..], pat)
  {
    forall i | 0 <= i < |s[k..]| && s[k..][i] == '{'
      ensures StartsWith(s[k..][i..], pat)
    {
      assert s[k..][i..] == s[k + i..];
    }
  }

  /** When every `{` of the template opens the placeholder and the value has no
      `{`, the substituted text has no `{` left at all, so in particular no
      placeholder. */
  lemma {:induction false} InsertLeavesNoBrace(s: string, key: string, val: string)
    requires '{' !in val && BracesOpenOnly(s, Placeholder(key))
    ensures '{' !in Insert(s, key, val)
    ensures !Occurs(Insert(s, key, val), Placeholder(key))
    decreases |s|
  {
    var pat := Placeholder(key);
    if s != [] {
      if StartsWith(s, pat) {
        BracesOpenOnlySuffix(s, pat, |pat|);
        InsertLeavesNoBrace(s[|pat|..], key, val);
      } else {
        assert s[0..] == s;
        BracesOpenOnlySuffix(s, pat, 1);
        InsertLeavesNoBrace(s[1..], key, val);
      }
    }
    NoOccurrenceWithoutFirstChar(Insert(s, key, val), pat);
  }

  // ---------------------------------------------------------------------------
  // Evaluation steps for concrete texts

  /** Text before the first possible occurrence is copied unchanged. */
  lemma {:induction false} ReplacePlainPrefix(p: string, rest: string, pat: string, val: string)
    requires pat != [] && pat[0] !in p
    ensures Replace(p + rest, pat, val) == p + Replace(rest, pat, val)
    decreases |p|
  {
    if p == [] {
      assert p + rest == rest;
    } else {
      assert p[0] in p;
      assert (p + rest)[1..] == p[1..] + rest;
      ReplacePlainPrefix(p[1..], rest, pat, val);
      assert Replace(p + rest, pat, val) == [p[0]] + Replace(p[1..] + rest, pat, val);
      assert [p[0]] + (p[1..] + Replace(rest, pat, val)) == p + Replace(rest, pat, val);
    }
  }

  /** A text that starts with the placeholder starts with the value afterwards. */
  lemma ReplaceAtOccurrence(rest: string, pat: string, val: string)
    requires pat != []
    ensures Replace(pat + rest, pat, val) == val + Replace(rest, pat, val)
  {
    assert (pat + rest)[..|pat|] == pat;
    assert (pat + rest)[|pat|..] == rest;
  }

  /** explode copies text up to the first separator into the first piece. */
  lemma {:induction false} SplitPlainPrefix(p: string, rest: string, sep: string)
    requires sep != [] && sep[0] !in p
    ensures Split(p + sep + rest, sep) == [p] + Split(rest, sep)
    decreases |p|
  {
    if p == [] {
      assert p + sep + rest == sep + rest;
      assert (sep + rest)[..|sep|] == sep;
      assert (sep + rest)[|sep|..] == rest;
    } else {
      var s := p + sep + rest;
      assert s[0] == p[0];
      assert s[1..] == p[1..] + sep + rest;
      SplitPlainPrefix(p[1..], rest, sep);
      assert [p[0]] + p[1..] == p;
    }
  }
}
