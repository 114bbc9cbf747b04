/** The parts of JavaScript's `String.prototype` and `Array.prototype.join`
    that the modelled files use: `trim`, `toLowerCase`, `indexOf`, `includes`,
    `startsWith`, `split` on a non-empty separator, `join`, and the `<`
    comparison of two strings. */
module JsString {
  import opened JsValue

  /** The characters `trim` removes: ECMAScript's WhiteSpace (tab, vertical
      tab, form feed, space, no-break space, the byte order mark and the
      space separators of Unicode category Zs) and LineTerminator. */
  predicate IsWhitespace(c: char) {
    c in WhitespaceChars || '\U{2000}' <= c <= '\U{200A}'
  }

  const WhitespaceChars: set<char> := {
    '\t', '\n', '\U{000B}', '\U{000C}', '\r', ' ', '\U{00A0}', '\U{1680}',
    '\U{2028}', '\U{2029}', '\U{202F}', '\U{205F}', '\U{3000}', '\U{FEFF}'
  }

  predicate AllWhitespace(s: string) {
    forall k :: 0 <= k < |s| ==> IsWhitespace(s[k])
  }

  /** `s.trimStart()`: drops the leading whitespace. */
  function TrimStart(s: string): string {
    if s != [] && IsWhitespace(s[0]) then TrimStart(s[1..]) else s
  }

  /** `trimStart` keeps a suffix, drops only whitespace, and stops at the
      first character that is not whitespace. */
  lemma {:induction false} TrimStartSpec(s: string)
    ensures |TrimStart(s)| <= |s| && TrimStart(s) == s[|s| - |TrimStart(s)|..]
    ensures AllWhitespace(s[..|s| - |TrimStart(s)|])
    ensures TrimStart(s) != [] ==> !IsWhitespace(TrimStart(s)[0])
    decreases |s|
  {
    if s != [] && IsWhitespace(s[0]) {
      var r := TrimStart(s[1..]);
      TrimStartSpec(s[1..]);
      assert s[..|s| - |r|] == [s[0]] + s[1..][..|s[1..]| - |r|];
    }
  }

  /** `s.trimEnd()`: drops the trailing whitespace. */
  function TrimEnd(s: string): string {
    if s != [] && IsWhitespace(s[|s| - 1]) then TrimEnd(s[..|s| - 1]) else s
  }

  /** `trimEnd` keeps a prefix, drops only whitespace, and stops at the last
      character that is not whitespace. */
  lemma {:induction false} TrimEndSpec(s: string)
    ensures |TrimEnd(s)| <= |s| && TrimEnd(s) == s[..|TrimEnd(s)|]
    ensures AllWhitespace(s[|TrimEnd(s)|..])
    ensures TrimEnd(s) != [] ==> !IsWhitespace(TrimEnd(s)[|TrimEnd(s)| - 1])
    decreases |s|
  {
    if s != [] && IsWhitespace(s[|s| - 1]) {
      var r := TrimEnd(s[..|s| - 1]);
      TrimEndSpec(s[..|s| - 1]);
      assert s[|r|..] == s[..|s| - 1][|r|..] + [s[|s| - 1]];
    }
  }

  /** `s.trim()`. */
  function Trim(s: string): string {
    TrimEnd(TrimStart(s))
  }

  /** `trim` returns a slice of `s` with whitespace only around it, which
      starts and ends with a non-whitespace character, and which is empty
      exactly when `s` is all whitespace. */
  lemma TrimSpec(s: string)
    ensures exists i :: 0 <= i <= |s| - |Trim(s)| && Trim(s) == s[i..i + |Trim(s)|]
                        && AllWhitespace(s[..i]) && AllWhitespace(s[i + |Trim(s)|..])
    ensures Trim(s) != [] ==> !IsWhitespace(Trim(s)[0]) && !IsWhitespace(Trim(s)[|Trim(s)| - 1])
    ensures Trim(s) == [] <==> AllWhitespace(s)
  {
    var t := TrimStart(s);
    var r := TrimEnd(t);
    TrimStartSpec(s);
    TrimEndSpec(t);
    TrimSlice(s, t, r);
    var i := |s| - |t|;
    assert 0 <= i <= |s| - |r| && r == s[i..i + |r|]
           && AllWhitespace(s[..i]) && AllWhitespace(s[i + |r|..]);
  }

  /** What trimming both ends keeps and drops, stated over the slices alone:
      `t` is `s` without a whitespace prefix and `r` is `t` without a
      whitespace suffix. */
  lemma TrimSlice(s: string, t: string, r: string)
    requires |t| <= |s| && t == s[|s| - |t|..] && AllWhitespace(s[..|s| - |t|])
    requires |r| <= |t| && r == t[..|r|] && AllWhitespace(t[|r|..])
    requires r != [] ==> !IsWhitespace(r[0])
    ensures r == s[|s| - |t|..|s| - |t| + |r|]
    ensures AllWhitespace(s[|s| - |t| + |r|..])
    ensures r == [] <==> AllWhitespace(s)
  {
    var i := |s| - |t|;
    assert s[i + |r|..] == t[|r|..];
    if r == [] {
      forall k | 0 <= k < |s| ensures IsWhitespace(s[k]) {
        if k < i {
          assert s[k] == s[..i][k];
        } else {
          assert s[k] == t[k - i];
          assert t[k - i] == t[|r|..][k - i];
        }
      }
    } else {
      assert s[i] == r[0];
    }
  }

  /** `trim` gives the empty string exactly for an all-whitespace string. */
  lemma TrimBlank(s: string)
    ensures Trim(s) == "" <==> AllWhitespace(s)
  {
    TrimSpec(s);
  }

  /** Trimming twice trims nothing more. */
  lemma TrimIdempotent(s: string)
    ensures Trim(Trim(s)) == Trim(s)
  {
    TrimSpec(s);
    var r := Trim(s);
    assert TrimStart(r) == r;
    assert TrimEnd(r) == r;
  }

  /** `c.toLowerCase()` for the ASCII letters; every other character is kept. */
  function ToLowerChar(c: char): char {
    if 'A' <= c <= 'Z' then (c as int + 32) as char else c
  }

  function ToLower(s: string): (r: string)
    ensures |r| == |s|
    ensures forall k :: 0 <= k < |s| ==> r[k] == ToLowerChar(s[k])
  {
    seq(|s|, k requires 0 <= k < |s| => ToLowerChar(s[k]))
  }

  /** `s.startsWith(p)`. */
  predicate StartsWith(s: string, p: string) {
    |p| <= |s| && s[..|p|] == p
  }

  /** `t` occurs in `s` starting at index `j`. */
  predicate OccursAt(s: string, t: string, j: int) {
    0 <= j && j + |t| <= |s| && s[j..j + |t|] == t
  }

  /** `s.indexOf(t)`, with `None` for JavaScript's `-1`: the first index at
      which `t` occurs, or `None` when it occurs nowhere. */
  function IndexOf(s: string, t: string): (r: Option<nat>)
    ensures r.Some? ==> OccursAt(s, t, r.value)
    ensures r.Some? ==> forall j :: 0 <= j < r.value ==> !OccursAt(s, t, j)
    ensures r.None? ==> forall j :: !OccursAt(s, t, j)
    decreases |s|
  {
    if |s| < |t| then None
    else if s[..|t|] == t then Some(0)
    else
      var r := IndexOf(s[1..], t);
      assert forall j :: 1 <= j ==> (OccursAt(s, t, j) <==> OccursAt(s[1..], t, j - 1)) by {
        forall j | 1 <= j
          ensures OccursAt(s, t, j) <==> OccursAt(s[1..], t, j - 1)
        {
          if j + |t| <= |s| {
            assert s[j..j + |t|] == s[1..][j - 1..j - 1 + |t|];
          }
        }
      }
      match r
      case None => None
      case Some(k) => Some(k + 1)
  }

  /** `s.includes(t)`. */
  predicate Includes(s: string, t: string) {
    IndexOf(s, t).Some?
  }

  /** An occurrence anywhere makes `includes` true. */
  lemma IncludesAt(s: string, t: string, j: int)
    requires OccursAt(s, t, j)
    ensures Includes(s, t)
  {
  }

  /** `parts.join(sep)`. */
  function Join(parts: seq<string>, sep: string): string
    decreases |parts|
  {
    if |parts| == 0 then ""
    else if |parts| == 1 then parts[0]
    else parts[0] + sep + Join(parts[1..], sep)
  }

  /** `s.split(sep)` for a non-empty separator: the pieces between the
      successive leftmost occurrences of `sep`; there is always at least one
      piece (`"".split(sep)` is `[""]`). Joining the pieces with `sep` gives
      `s` back, and no piece contains `sep`. */
  function Split(s: string, sep: string): (r: seq<string>)
    requires sep != ""
    ensures |r| >= 1
    decreases |s|
  {
    match IndexOf(s, sep)
    case None => [s]
    case Some(i) => [s[..i]] + Split(s[i + |sep|..], sep)
  }

  lemma SplitSpec(s: string, sep: string)
    requires sep != ""
    ensures Join(Split(s, sep), sep) == s
    ensures forall k :: 0 <= k < |Split(s, sep)| ==> IndexOf(Split(s, sep)[k], sep).None?
  {
    SplitJoinsBack(s, sep);
    SplitPiecesFree(s, sep);
  }

  lemma {:induction false} SplitJoinsBack(s: string, sep: string)
    requires sep != ""
    ensures Join(Split(s, sep), sep) == s
    decreases |s|
  {
    if IndexOf(s, sep).Some? {
      var i := IndexOf(s, sep).value;
      var tail := s[i + |sep|..];
      SplitJoinsBack(tail, sep);
      var r := Split(s, sep);
      SplitAtFirst(s, sep, i);
      assert r[1..] == Split(tail, sep);
      assert s == s[..i] + sep + tail;
    }
  }

  lemma {:induction false} SplitPiecesFree(s: string, sep: string)
    requires sep != ""
    ensures forall k :: 0 <= k < |Split(s, sep)| ==> IndexOf(Split(s, sep)[k], sep).None?
    decreases |s|
  {
    if IndexOf(s, sep).Some? {
      var i := IndexOf(s, sep).value;
      var tail := s[i + |sep|..];
      SplitPiecesFree(tail, sep);
      NothingBeforeFirst(s, sep, i);
      var r := Split(s, sep);
      var rest := Split(tail, sep);
      SplitAtFirst(s, sep, i);
      forall k | 0 <= k < |r| ensures IndexOf(r[k], sep).None? {
        if k > 0 {
          assert r[k] == rest[k - 1];
        }
      }
    }
  }

  /** The text before the first occurrence of `sep` does not contain it. */
  lemma NothingBeforeFirst(s: string, sep: string, i: nat)
    requires sep != "" && IndexOf(s, sep) == Some(i)
    ensures IndexOf(s[..i], sep).None?
  {
    forall j | OccursAt(s[..i], sep, j) ensures false {
      assert s[..i][j..j + |sep|] == s[j..j + |sep|];
      assert OccursAt(s, sep, j);
    }
  }

  /** The pieces of `s` when `sep` first occurs at `i`: the text before it,
      then the pieces of what follows it. */
  lemma SplitAtFirst(s: string, sep: string, i: nat)
    requires sep != "" && IndexOf(s, sep) == Some(i)
    ensures Split(s, sep) == [s[..i]] + Split(s[i + |sep|..], sep)
  {
  }

  /** The pieces after the first, joined again, are exactly the text after
      the first occurrence of the separator (empty when there is none). */
  lemma {:induction false} JoinTail(s: string, sep: string)
    requires sep != ""
    ensures IndexOf(s, sep).None? ==> Split(s, sep) == [s]
    ensures IndexOf(s, sep).Some? ==>
              var i := IndexOf(s, sep).value;
              Split(s, sep)[0] == s[..i]
              && Join(Split(s, sep)[1..], sep) == s[i + |sep|..]
  {
    if IndexOf(s, sep).Some? {
      var i := IndexOf(s, sep).value;
      SplitAtFirst(s, sep, i);
      SplitSpec(s[i + |sep|..], sep);
      assert Split(s, sep)[1..] == Split(s[i + |sep|..], sep);
    }
  }

  /** For a one-character separator that no part contains, splitting the
      joined parts gives the parts back. */
  lemma {:induction false} SplitJoin(parts: seq<string>, sep: string)
    requires |sep| == 1 && |parts| >= 1
    requires forall k :: 0 <= k < |parts| ==> IndexOf(parts[k], sep).None?
    ensures Split(Join(parts, sep), sep) == parts
    decreases |parts|
  {
    var s := Join(parts, sep);
    if |parts| == 1 {
    } else {
      var tail := Join(parts[1..], sep);
      var p := parts[0];
      assert s == p + sep + tail;
      assert OccursAt(s, sep, |p|) by {
        assert s[|p|..|p| + 1] == sep;
      }
      forall j | 0 <= j < |p| ensures !OccursAt(s, sep, j) {
        assert s[j..j + 1] == p[j..j + 1];
        assert !OccursAt(p, sep, j);
      }
      assert IndexOf(s, sep) == Some(|p|);
      SplitAtFirst(s, sep, |p|);
      assert s[..|p|] == p;
      assert s[|p| + 1..] == tail;
      SplitJoin(parts[1..], sep);
    }
  }

  /** `a < b` on JavaScript strings: lexicographic order of the characters,
      where a proper prefix comes first. */
  predicate Less(a: string, b: string)
    decreases |a|
  {
    if a == [] then b != []
    else if b == [] then false
    else if a[0] != b[0] then a[0] < b[0]
    else Less(a[1..], b[1..])
  }

  lemma {:induction false} LessIrreflexive(a: string)
    ensures !Less(a, a)
    decreases |a|
  {
    if a != [] {
      LessIrreflexive(a[1..]);
    }
  }

  lemma {:induction false} LessTransitive(a: string, b: string, c: string)
    requires Less(a, b) && Less(b, c)
    ensures Less(a, c)
    decreases |a|
  {
    if a != [] && b != [] && c != [] && a[0] == b[0] && b[0] == c[0] {
      LessTransitive(a[1..], b[1..], c[1..]);
    }
  }

  /** Two different strings are ordered one way or the other. */
  lemma {:induction false} LessTotal(a: string, b: string)
    requires a != b
    ensures Less(a, b) || Less(b, a)
    decreases |a|
  {
    if a != [] && b != [] && a[0] == b[0] {
      assert a == [a[0]] + a[1..] && b == [b[0]] + b[1..];
      LessTotal(a[1..], b[1..]);
    }
  }

  /** "Not less than" chains: the order a descending sort relies on. */
  lemma NotLessTransitive(a: string, b: string, c: string)
    requires !Less(a, b) && !Less(b, c)
    ensures !Less(a, c)
  {
    if Less(a, c) {
      if a == b {
      } else {
        LessTotal(a, b);
        LessTransitive(b, a, c);
      }
    }
  }
}
