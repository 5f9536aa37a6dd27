/** The string operations the storage and planning code relies on: Python's split, join, strip and
    lower, as far as they matter here. */
module Text {

  // ---------------------------------------------------------------------------------------------
  // split and join
  // ---------------------------------------------------------------------------------------------

  function Split(s: string, sep: char): (parts: seq<string>)
    ensures |parts| >= 1
    ensures forall p | p in parts :: sep !in p
  {
    if s == "" then [""]
    else
      var rest := Split(s[1..], sep);
      if s[0] == sep then [""] + rest else [[s[0]] + rest[0]] + rest[1..]
  }

  function Join(parts: seq<string>, sep: char): string {
    if parts == [] then ""
    else if |parts| == 1 then parts[0]
    else parts[0] + [sep] + Join(parts[1..], sep)
  }

  /** One character in front of a text that has been split. */
  function Extend(c: char, parts: seq<string>, sep: char): seq<string>
    requires parts != []
  {
    if c == sep then [""] + parts else [[c] + parts[0]] + parts[1..]
  }

  lemma SplitCons(s: string, sep: char)
    requires s != ""
    ensures Split(s, sep) == Extend(s[0], Split(s[1..], sep), sep)
  {
  }

  lemma ExtendConcat(c: char, parts: seq<string>, more: seq<string>, sep: char)
    requires parts != []
    ensures Extend(c, parts + more, sep) == Extend(c, parts, sep) + more
  {
  }

  lemma TailOfConcat(a: string, b: string, sep: char)
    ensures var s := a + [sep] + b;
            if a == "" then s[0] == sep && s[1..] == b else s[0] == a[0] && s[1..] == a[1..] + [sep] + b
  {
  }

  lemma {:induction false} SplitConcat(a: string, b: string, sep: char)
    ensures Split(a + [sep] + b, sep) == Split(a, sep) + Split(b, sep)
  {
    var s := a + [sep] + b;
    TailOfConcat(a, b, sep);
    SplitCons(s, sep);
    if a != "" {
      SplitConcat(a[1..], b, sep);
      SplitCons(a, sep);
      ExtendConcat(a[0], Split(a[1..], sep), Split(b, sep), sep);
    }
  }

  lemma {:induction false} SplitAtom(s: string, sep: char)
    requires sep !in s
    ensures Split(s, sep) == [s]
  {
    if s != "" {
      SplitAtom(s[1..], sep);
      assert s == [s[0]] + s[1..];
    }
  }

  /** Joining separator-free parts and splitting again gives the parts back. */
  lemma {:induction false} SplitJoin(parts: seq<string>, sep: char)
    requires parts != [] && forall p | p in parts :: sep !in p
    ensures Split(Join(parts, sep), sep) == parts
  {
    SplitAtom(parts[0], sep);
    if |parts| > 1 {
      SplitConcat(parts[0], Join(parts[1..], sep), sep);
      SplitJoin(parts[1..], sep);
    }
  }

  lemma {:induction false} JoinSplit(s: string, sep: char)
    ensures Join(Split(s, sep), sep) == s
  {
    if s != "" {
      JoinSplit(s[1..], sep);
      var rest := Split(s[1..], sep);
      if s[0] != sep && |rest| > 1 {
        assert [[s[0]] + rest[0]] + rest[1..] == Split(s, sep);
      }
    }
  }

  lemma {:induction false} JoinConcat(a: seq<string>, b: seq<string>, sep: char)
    requires a != [] && b != []
    ensures Join(a + b, sep) == Join(a, sep) + [sep] + Join(b, sep)
  {
    if |a| == 1 {
      assert (a + b)[1..] == b;
    } else {
      assert (a + b)[1..] == a[1..] + b;
      JoinConcat(a[1..], b, sep);
    }
  }

  /** The character at either end of a join comes from the outer parts. */
  lemma {:induction false} JoinEnds(parts: seq<string>, sep: char)
    requires parts != [] && forall i | 0 <= i < |parts| :: parts[i] != ""
    ensures Join(parts, sep) != ""
    ensures Join(parts, sep)[0] == parts[0][0]
    ensures var s, last := Join(parts, sep), parts[|parts| - 1]; s[|s| - 1] == last[|last| - 1]
  {
    if |parts| > 1 {
      var rest := Join(parts[1..], sep);
      JoinEnds(parts[1..], sep);
      assert Join(parts, sep) == parts[0] + [sep] + rest;
      assert parts[1..][|parts| - 2] == parts[|parts| - 1];
    }
  }

  lemma {:induction false} JoinChars(parts: seq<string>, sep: char, c: char)
    requires c in Join(parts, sep)
    ensures c == sep || exists p :: p in parts && c in p
  {
    if |parts| > 1 && c !in parts[0] && c != sep {
      JoinChars(parts[1..], sep, c);
    }
  }

  // ---------------------------------------------------------------------------------------------
  // strip
  // ---------------------------------------------------------------------------------------------

  /** What `str.strip()` removes. */
  predicate IsSpace(c: char) {
    || '\t' <= c <= '\r' || '\U{1c}' <= c <= ' ' || c == '\U{85}' || c == '\U{a0}' || c == '\U{1680}'
    || '\U{2000}' <= c <= '\U{200a}' || c == '\U{2028}' || c == '\U{2029}' || c == '\U{202f}'
    || c == '\U{205f}' || c == '\U{3000}'
  }

  predicate IsSlash(c: char) {
    c == '/'
  }

  function LStrip(s: string, drop: char -> bool): (r: string)
    ensures r == "" || !drop(r[0])
  {
    if s != "" && drop(s[0]) then LStrip(s[1..], drop) else s
  }

  function RStrip(s: string, drop: char -> bool): (r: string)
    ensures r == "" || !drop(r[|r| - 1])
    ensures r <= s
  {
    if s != "" && drop(s[|s| - 1]) then RStrip(s[..|s| - 1], drop) else s
  }

  function Strip(s: string, drop: char -> bool): string {
    RStrip(LStrip(s, drop), drop)
  }

  /** Nothing to drop at either end: nothing is dropped. */
  lemma StripFixed(s: string, drop: char -> bool)
    requires s == "" || (!drop(s[0]) && !drop(s[|s| - 1]))
    ensures LStrip(s, drop) == s && Strip(s, drop) == s
  {
  }

  /** Stripping takes off the longest run of droppable characters at each end, and nothing else. */
  lemma StripIs(s: string, drop: char -> bool) returns (n: nat, m: nat)
    ensures n <= m <= |s| && Strip(s, drop) == s[n..m]
    ensures forall i | 0 <= i < n || m <= i < |s| :: drop(s[i])
    ensures n < m ==> !drop(s[n]) && !drop(s[m - 1])
  {
    LStripIs(s, drop);
    var left := LStrip(s, drop);
    RStripIs(left, drop);
    n, m := |s| - |left|, |s| - |left| + |RStrip(left, drop)|;
    assert forall i | n <= i < |s| :: s[i] == left[i - n];
  }

  lemma {:induction false} LStripIs(s: string, drop: char -> bool)
    ensures var r := LStrip(s, drop);
            |r| <= |s| && r == s[|s| - |r|..] && forall i | 0 <= i < |s| - |r| :: drop(s[i])
  {
    if s != "" && drop(s[0]) {
      LStripIs(s[1..], drop);
      assert forall i | 0 < i < |s| :: s[i] == s[1..][i - 1];
    }
  }

  lemma {:induction false} RStripIs(s: string, drop: char -> bool)
    ensures var r := RStrip(s, drop);
            |r| <= |s| && r == s[..|r|] && forall i | |r| <= i < |s| :: drop(s[i])
  {
    if s != "" && drop(s[|s| - 1]) {
      RStripIs(s[..|s| - 1], drop);
      assert forall i | 0 <= i < |s| - 1 :: s[i] == s[..|s| - 1][i];
    }
  }

  /** What is left has nothing to drop at either end. */
  lemma StripEnds(s: string, drop: char -> bool)
    ensures var r := Strip(s, drop); r == "" || (!drop(r[0]) && !drop(r[|r| - 1]))
  {
  }

  // ---------------------------------------------------------------------------------------------
  // lower
  // ---------------------------------------------------------------------------------------------

  /** `str.lower()`, exact wherever the outcome is compared with ASCII text: besides A-Z only the
      Kelvin sign and the dotted capital I lower to anything containing an ASCII letter.  Other
      non-ASCII characters are left alone; they never lower to ASCII. */
  function LowerChar(c: char): string {
    if 'A' <= c <= 'Z' then [c - 'A' + 'a']
    else if c == '\U{212a}' then "k"
    else if c == '\U{130}' then "i\U{307}"
    else [c]
  }

  /** The letters; and apart from them and the two signs nothing changes. */
  lemma LowerOfLetters(i: nat, c: char)
    ensures i < 26 ==> LowerChar("ABCDEFGHIJKLMNOPQRSTUVWXYZ"[i]) == ["abcdefghijklmnopqrstuvwxyz"[i]]
    ensures c !in "ABCDEFGHIJKLMNOPQRSTUVWXYZ" && c != '\U{212a}' && c != '\U{130}' ==> LowerChar(c) == [c]
  {
    if 'A' <= c <= 'Z' {
      var k := (c - 'A') as int;
      assert "ABCDEFGHIJKLMNOPQRSTUVWXYZ"[k] == c;
    }
  }

  function Lower(s: string): string {
    if s == "" then "" else LowerChar(s[0]) + Lower(s[1..])
  }

  lemma {:induction false} LowerConcat(a: string, b: string)
    ensures Lower(a + b) == Lower(a) + Lower(b)
  {
    if a == "" {
      assert a + b == b;
    } else {
      assert (a + b)[1..] == a[1..] + b;
      LowerConcat(a[1..], b);
    }
  }

  lemma {:induction false} LowerIdempotent(s: string)
    ensures Lower(Lower(s)) == Lower(s)
  {
    if s != "" {
      LowerIdempotent(s[1..]);
      LowerConcat(LowerChar(s[0]), Lower(s[1..]));
      var head := LowerChar(s[0]);
      if |head| == 2 {
        assert head == [head[0]] + [head[1]];
        assert Lower(head) == LowerChar(head[0]) + Lower(head[1..]);
        assert Lower(head[1..]) == LowerChar(head[1]) + Lower(head[1..][1..]);
      } else {
        assert Lower(head) == LowerChar(head[0]) + Lower(head[1..]);
      }
    }
  }

  lemma {:induction false} LowerFixed(s: string)
    requires forall i | 0 <= i < |s| :: LowerChar(s[i]) == [s[i]]
    ensures Lower(s) == s
  {
    if s != "" {
      LowerFixed(s[1..]);
    }
  }
}
