/** Step ids: `_slug` in app/kernel/action_plan.py. */
module Slugs {
  import opened Text

  predicate IsSlugChar(c: char) {
    'a' <= c <= 'z' || '0' <= c <= '9'
  }

  predicate IsUnderscore(c: char) {
    c == '_'
  }

  /** One more character of a squashed text. */
  function Extended(front: string, c: char): string {
    if IsSlugChar(c) then front + [c]
    else if front != "" && front[|front| - 1] == '_' then front
    else front + ['_']
  }

  /** Every run of other characters becomes one underscore. */
  function Squash(s: string): string {
    if s == "" then ""
    else
      Extended(Squash(s[..|s| - 1]), s[|s| - 1])
  }

  function Slug(value: string): string {
    var r := Strip(Squash(Lower(value)), IsUnderscore);
    if r == "" then "step" else r
  }

  /** Lower-case words joined by single underscores. */
  ghost predicate IsSlug(s: string) {
    && s != "" && s[0] != '_' && s[|s| - 1] != '_'
    && (forall i | 0 <= i < |s| :: IsSlugChar(s[i]) || s[i] == '_')
    && (forall i | 0 < i < |s| :: s[i - 1] != '_' || s[i] != '_')
  }

  ghost predicate IsSquashed(s: string) {
    && (forall i | 0 <= i < |s| :: IsSlugChar(s[i]) || s[i] == '_')
    && (forall i | 0 < i < |s| :: s[i - 1] != '_' || s[i] != '_')
  }

  lemma {:induction false} SquashShape(s: string)
    ensures IsSquashed(Squash(s))
  {
    if s != "" {
      SquashShape(s[..|s| - 1]);
    }
  }

  lemma {:induction false} SquashFixed(s: string)
    requires IsSquashed(s)
    ensures Squash(s) == s
  {
    if s != "" {
      var front := s[..|s| - 1];
      assert forall i | 0 <= i < |front| :: front[i] == s[i];
      SquashFixed(front);
      assert s == front + [s[|s| - 1]];
    }
  }

  lemma {:induction false} LStripKeepsSquashed(s: string, drop: char -> bool)
    requires IsSquashed(s)
    ensures IsSquashed(LStrip(s, drop))
  {
    if s != "" && drop(s[0]) {
      assert forall i | 0 <= i < |s[1..]| :: s[1..][i] == s[i + 1];
      LStripKeepsSquashed(s[1..], drop);
    }
  }

  /** The slugs are exactly the texts that slugging leaves alone, and slugging always yields one. */
  lemma SlugsAreNormalForms(value: string)
    ensures IsSlug(Slug(value))
    ensures Slug(value) == value <==> IsSlug(value)
  {
    SquashShape(Lower(value));
    StrippedIsSlug(Squash(Lower(value)));
    if IsSlug(value) {
      LowerFixed(value);
      SquashFixed(value);
      StripFixed(value, IsUnderscore);
    }
  }

  lemma StrippedIsSlug(squashed: string)
    requires IsSquashed(squashed)
    ensures var r := Strip(squashed, IsUnderscore); r == "" || IsSlug(r)
    ensures IsSlug("step")
  {
    LStripKeepsSquashed(squashed, IsUnderscore);
    StripEnds(squashed, IsUnderscore);
    var left := LStrip(squashed, IsUnderscore);
    assert RStrip(left, IsUnderscore) <= left;
  }

  /** Some letter or digit, which is what a slug is made of. */
  ghost predicate HasWord(s: string) {
    exists i | 0 <= i < |s| :: IsSlugChar(s[i])
  }

  /** What slugging does, word by word: a text without letters and digits becomes "step", a word its
      lower-case form, and around any other character the slugs of both sides are joined by one
      underscore, a side without words being dropped. */
  lemma SlugOfWords(a: string, c: char, b: string)
    requires LowerChar(c) == [c] && !IsSlugChar(c)
    ensures Slug(a + [c] + b) ==
            if !HasWord(Lower(a)) then Slug(b) else if !HasWord(Lower(b)) then Slug(a) else Slug(a) + "_" + Slug(b)
    ensures !HasWord(Lower(a)) ==> Slug(a) == "step"
  {
    LowerAround(a, c, b);
    SquashAround(Lower(a), c, Lower(b));
    SquashShape(Lower(a));
    SquashShape(Lower(b));
    SquashKeepsWords(Lower(a));
    SquashKeepsWords(Lower(b));
    StripBetween(Squash(Lower(a)), Squash(Lower(b)));
    StripBetween(Squash(Lower(b)), Squash(Lower(a)));
  }

  lemma SlugOfWord(a: string)
    requires a != "" && forall i | 0 <= i < |Lower(a)| :: IsSlugChar(Lower(a)[i])
    ensures Slug(a) == Lower(a)
  {
    SquashFixed(Lower(a));
    StripFixed(Lower(a), IsUnderscore);
    assert |LowerChar(a[0])| > 0;
  }

  lemma LowerAround(a: string, c: char, b: string)
    requires LowerChar(c) == [c]
    ensures Lower(a + [c] + b) == Lower(a) + [c] + Lower(b)
  {
    LowerConcat(a + [c], b);
    LowerConcat(a, [c]);
    assert Lower([c]) == [c] + Lower([c][1..]) == [c];
  }

  lemma {:induction false} SquashKeepsWords(s: string)
    ensures HasWord(Squash(s)) <==> HasWord(s)
  {
    if s != "" {
      var front, c := s[..|s| - 1], s[|s| - 1];
      SquashKeepsWords(front);
      assert s == front + [c];
      if IsSlugChar(c) {
        assert IsSlugChar(Squash(s)[|Squash(s)| - 1]) && IsSlugChar(s[|s| - 1]);
      } else {
        assert Squash(front) <= Squash(s);
        assert HasWord(Squash(s)) <==> HasWord(Squash(front)) by {
          forall i | 0 <= i < |Squash(s)| && IsSlugChar(Squash(s)[i]) ensures HasWord(Squash(front)) {
            assert Squash(front)[i] == Squash(s)[i];
          }
          forall i | 0 <= i < |Squash(front)| && IsSlugChar(Squash(front)[i]) ensures HasWord(Squash(s)) {
            assert Squash(front)[i] == Squash(s)[i];
          }
        }
        assert HasWord(s) <==> HasWord(front) by {
          forall i | 0 <= i < |s| && IsSlugChar(s[i]) ensures HasWord(front) {
            assert front[i] == s[i];
          }
          forall i | 0 <= i < |front| && IsSlugChar(front[i]) ensures HasWord(s) {
            assert front[i] == s[i];
          }
        }
      }
    }
  }

  lemma SquashAround(a: string, c: char, b: string)
    requires !IsSlugChar(c)
    ensures Squash(a + [c] + b) == RStrip(Squash(a), IsUnderscore) + "_" + LStrip(Squash(b), IsUnderscore)
  {
    assert (a + [c])[..|a|] == a;
    SquashShape(a);
    SquashAfterGap(a + [c], b);
  }

  lemma {:induction false} SquashAfterGap(x: string, b: string)
    requires var r := Squash(x); r != "" && r[|r| - 1] == '_'
    ensures Squash(x + b) == Squash(x) + LStrip(Squash(b), IsUnderscore)
  {
    if b == "" {
      assert x + b == x;
    } else {
      var front, d := b[..|b| - 1], b[|b| - 1];
      SquashAfterGap(x, front);
      assert (x + b)[..|x + b| - 1] == x + front;
      ExtendedAfterGap(Squash(x), Squash(front), d);
    }
  }

  lemma ExtendedAfterGap(p: string, before: string, d: char)
    requires p != "" && p[|p| - 1] == '_'
    ensures Extended(p + LStrip(before, IsUnderscore), d) == p + LStrip(Extended(before, d), IsUnderscore)
  {
    if IsSlugChar(d) {
      LStripSnoc(before, d);
    } else {
      LStripSnoc(before, '_');
      LStripSuffix(before);
    }
  }

  lemma {:induction false} LStripSnoc(s: string, d: char)
    ensures LStrip(s + [d], IsUnderscore) ==
            if LStrip(s, IsUnderscore) == "" && d == '_' then "" else LStrip(s, IsUnderscore) + [d]
  {
    if s == "" {
      assert s + [d] == [d];
    } else {
      assert (s + [d])[1..] == s[1..] + [d];
      if s[0] == '_' {
        LStripSnoc(s[1..], d);
      }
    }
  }

  lemma {:induction false} LStripSuffix(s: string)
    ensures var r := LStrip(s, IsUnderscore);
            if r == "" then forall i | 0 <= i < |s| :: s[i] == '_' else s[|s| - 1] == r[|r| - 1]
  {
    if s != "" && s[0] == '_' {
      LStripSuffix(s[1..]);
      assert forall i | 0 < i < |s| :: s[i] == s[1..][i - 1];
    }
  }

  /** Nothing or one underscore on either side of a core. */
  ghost predicate Framed(s: string, l: string, core: string, r: string) {
    && s == l + core + r && (l == "" || l == "_") && (r == "" || r == "_")
    && core != "" && core[0] != '_' && core[|core| - 1] != '_'
  }

  lemma StripFrame(s: string, l: string, core: string, r: string)
    requires Framed(s, l, core, r)
    ensures LStrip(s, IsUnderscore) == core + r && RStrip(s, IsUnderscore) == l + core
    ensures Strip(s, IsUnderscore) == core
  {
    StripRight(core, r);
    StripRight(l + core, r);
    if l == "_" {
      assert s[0] == '_' && s[1..] == core + r;
    } else {
      assert s == core + r;
    }
  }

  lemma StripRight(core: string, r: string)
    requires (r == "" || r == "_") && core != "" && core[|core| - 1] != '_'
    ensures RStrip(core + r, IsUnderscore) == core
  {
    if r == "_" {
      assert (core + r)[..|core|] == core;
    } else {
      assert core + r == core;
    }
  }

  /** A squashed text without words is empty or one underscore, any other has a core. */
  lemma FrameOf(s: string) returns (l: string, core: string, r: string)
    requires IsSquashed(s)
    ensures if HasWord(s) then Framed(s, l, core, r) else s == "" || s == "_"
  {
    if s == "" || s == "_" {
      l, core, r := "", "", "";
    } else {
      l := if s[0] == '_' then "_" else "";
      r := if s[|s| - 1] == '_' then "_" else "";
      core := s[|l|..|s| - |r|];
      assert HasWord(s) by {
        assert if |s| == 1 then IsSlugChar(s[0]) else IsSlugChar(s[0]) || IsSlugChar(s[1]);
      }
      assert s == l + core + r;
    }
  }

  lemma StripBetween(a: string, b: string)
    requires IsSquashed(a) && IsSquashed(b)
    ensures var x, y := Strip(a, IsUnderscore), Strip(b, IsUnderscore);
            Strip(RStrip(a, IsUnderscore) + "_" + LStrip(b, IsUnderscore), IsUnderscore) ==
            if !HasWord(a) then y else if !HasWord(b) then x else x + "_" + y
    ensures !HasWord(a) <==> Strip(a, IsUnderscore) == ""
  {
    var l, x, t := FrameOf(a);
    var h, y, r := FrameOf(b);
    StripOfWordless(a);
    StripOfWordless(b);
    if HasWord(a) && HasWord(b) {
      StripBetweenWords(a, l, x, t, b, h, y, r);
    } else if HasWord(a) {
      StripBeforeGap(a, l, x, t);
    } else if HasWord(b) {
      StripAfterGap(b, h, y, r);
    } else {
      StripOfWordless("_");
      assert "" + "_" + "" == "_";
    }
  }

  lemma StripBetweenWords(a: string, l: string, x: string, t: string, b: string, h: string, y: string, r: string)
    requires Framed(a, l, x, t) && Framed(b, h, y, r)
    ensures Strip(RStrip(a, IsUnderscore) + "_" + LStrip(b, IsUnderscore), IsUnderscore) ==
            Strip(a, IsUnderscore) + "_" + Strip(b, IsUnderscore)
    ensures Strip(a, IsUnderscore) != ""
  {
    StripFrame(a, l, x, t);
    StripFrame(b, h, y, r);
    var core := JoinCores(x, y);
    FrameJoined(l, x, y, r, core);
    StripFrame(RStrip(a, IsUnderscore) + "_" + LStrip(b, IsUnderscore), l, core, r);
  }

  lemma JoinCores(x: string, y: string) returns (core: string)
    requires x != "" && y != ""
    ensures core == x + "_" + y && core != "" && core[0] == x[0] && core[|core| - 1] == y[|y| - 1]
  {
    core := x + "_" + y;
  }

  lemma FrameJoined(l: string, x: string, y: string, r: string, core: string)
    requires core == x + "_" + y
    ensures (l + x) + "_" + (y + r) == l + core + r
  {
  }

  lemma StripBeforeGap(a: string, l: string, x: string, t: string)
    requires Framed(a, l, x, t)
    ensures Strip(RStrip(a, IsUnderscore) + "_" + "", IsUnderscore) == Strip(a, IsUnderscore) != ""
  {
    StripFrame(a, l, x, t);
    var s := l + x + "_";
    assert RStrip(a, IsUnderscore) + "_" + "" == s;
    StripFrame(s, l, x, "_");
  }

  lemma StripAfterGap(b: string, h: string, y: string, r: string)
    requires Framed(b, h, y, r)
    ensures Strip("" + "_" + LStrip(b, IsUnderscore), IsUnderscore) == Strip(b, IsUnderscore) != ""
  {
    StripFrame(b, h, y, r);
    var s := "_" + y + r;
    UnderscoreBefore(y, r);
    StripFrame(s, "_", y, r);
  }

  lemma UnderscoreBefore(y: string, r: string)
    ensures "" + "_" + (y + r) == "_" + y + r
  {
  }

  lemma StripOfWordless(s: string)
    ensures s == "" || s == "_" ==>
              !HasWord(s) && RStrip(s, IsUnderscore) == "" && LStrip(s, IsUnderscore) == "" && Strip(s, IsUnderscore) == ""
  {
    if s == "_" {
      assert s[1..] == "" && s[..0] == "";
    }
  }
}
