/** Path normalisation: the loop of the standard library's posixpath.normpath, which both the
    storage adapter and the archive checker call, and the directory walk it stands for. */
module Paths {
  import opened Basics
  import opened Text

  /** One turn of the normpath loop. */
  function Push(stack: seq<string>, comp: string, rooted: bool): seq<string> {
    if comp == "" || comp == "." then stack
    else if comp != ".." || (!rooted && stack == []) || (stack != [] && stack[|stack| - 1] == "..") then stack + [comp]
    else if stack != [] then stack[..|stack| - 1]
    else stack
  }

  function Collapse(comps: seq<string>, rooted: bool): seq<string> {
    if comps == [] then []
    else Push(Collapse(comps[..|comps| - 1], rooted), comps[|comps| - 1], rooted)
  }

  /** Two leading slashes survive, three or more count as one. */
  function InitialSlashes(path: string): nat {
    if !("/" <= path) then 0 else if "//" <= path && !("///" <= path) then 2 else 1
  }

  function Normalised(path: string): string {
    var n := InitialSlashes(path);
    var full := "//"[..n] + Join(Collapse(Split(path, '/'), n > 0), '/');
    if full == "" then "." else full
  }

  method NormPath(path: string) returns (r: string)
    ensures r == Normalised(path)
  {
    if path == "" {
      assert Split(path, '/') == [""] && Collapse([""][..0], false) == [];
      return ".";
    }
    var initial := InitialSlashes(path);
    var comps := Split(path, '/');
    var stack: seq<string> := [];
    for i := 0 to |comps|
      invariant stack == Collapse(comps[..i], initial > 0)
    {
      assert comps[..i + 1][..i] == comps[..i];
      var comp := comps[i];
      if comp == "" || comp == "." {
        continue;
      }
      if comp != ".." || (initial == 0 && stack == []) || (stack != [] && stack[|stack| - 1] == "..") {
        stack := stack + [comp];
      } else if stack != [] {
        stack := stack[..|stack| - 1];
      }
    }
    assert comps[..|comps|] == comps;
    r := "//"[..initial] + Join(stack, '/');
    if r == "" {
      r := ".";
    }
  }

  // ---------------------------------------------------------------------------------------------
  // The walk
  // ---------------------------------------------------------------------------------------------

  /** Follow the segments from a root directory, one at a time.  None: some ".." left the root. */
  function Resolve(comps: seq<string>): Option<seq<string>> {
    if comps == [] then Some([])
    else
      var here := Resolve(comps[..|comps| - 1]);
      var comp := comps[|comps| - 1];
      if here.None? || comp == "" || comp == "." then here
      else if comp != ".." then Some(here.value + [comp])
      else if here.value == [] then None
      else Some(here.value[..|here.value| - 1])
  }

  /** How deep the walk stands, counted without looking at names. */
  function Depth(comps: seq<string>): int {
    if comps == [] then 0
    else
      var comp := comps[|comps| - 1];
      Depth(comps[..|comps| - 1]) + (if comp == "" || comp == "." then 0 else if comp == ".." then -1 else 1)
  }

  predicate IsName(comp: string) {
    comp != "" && comp != "." && comp != ".." && '/' !in comp
  }

  /** The walk stays inside exactly when no prefix of the segments climbs above the root, and the
      depth it ends at is the number of names left. */
  lemma {:induction false} ResolveIffNeverClimbs(comps: seq<string>)
    ensures Resolve(comps).Some? <==> forall i | 0 <= i <= |comps| :: Depth(comps[..i]) >= 0
    ensures Resolve(comps).Some? ==> |Resolve(comps).value| == Depth(comps)
  {
    if comps == [] {
      assert forall i | 0 <= i <= |comps| :: comps[..i] == [];
    } else {
      var front := comps[..|comps| - 1];
      ResolveIffNeverClimbs(front);
      assert comps[..|comps|] == comps;
      forall i | 0 <= i <= |front| ensures Depth(comps[..i]) == Depth(front[..i]) {
        assert comps[..i] == front[..i];
      }
      assert Resolve(comps).Some? <==> Resolve(front).Some? && Depth(comps) >= 0;
    }
  }

  lemma {:induction false} ResolveNames(comps: seq<string>)
    requires forall c | c in comps :: '/' !in c
    requires Resolve(comps).Some?
    ensures forall i | 0 <= i < |Resolve(comps).value| :: IsName(Resolve(comps).value[i])
  {
    if comps != [] {
      ResolveNames(comps[..|comps| - 1]);
    }
  }

  /** The loop computes the walk; when the walk leaves the root, it leaves a leading "..". */
  lemma {:induction false} CollapseIsWalk(comps: seq<string>)
    requires forall c | c in comps :: '/' !in c
    ensures Resolve(comps).Some? ==> Collapse(comps, false) == Resolve(comps).value
    ensures Resolve(comps).None? ==> Collapse(comps, false) != [] && Collapse(comps, false)[0] == ".."
  {
    if comps != [] {
      var front := comps[..|comps| - 1];
      CollapseIsWalk(front);
      if Resolve(front).Some? {
        ResolveNames(front);
      }
    }
  }

  lemma {:induction false} ResolveOfNames(names: seq<string>)
    requires forall i | 0 <= i < |names| :: IsName(names[i])
    ensures Resolve(names) == Some(names)
  {
    if names != [] {
      ResolveOfNames(names[..|names| - 1]);
      assert names == names[..|names| - 1] + [names[|names| - 1]];
    }
  }

  lemma {:induction false} CollapseParts(comps: seq<string>, rooted: bool)
    requires forall c | c in comps :: '/' !in c
    ensures forall i | 0 <= i < |Collapse(comps, rooted)| ::
              '/' !in Collapse(comps, rooted)[i] && Collapse(comps, rooted)[i] != "" && Collapse(comps, rooted)[i] != "."
  {
    if comps != [] {
      CollapseParts(comps[..|comps| - 1], rooted);
    }
  }

  /** A relative path normalises to its walk, spelled with single slashes. */
  lemma NormalisedRelative(path: string)
    requires !("/" <= path)
    ensures Resolve(Split(path, '/')).Some? ==>
              var names := Resolve(Split(path, '/')).value;
              Normalised(path) == if names == [] then "." else Join(names, '/')
    ensures Resolve(Split(path, '/')).None? ==>
              && Normalised(path) == Join(Collapse(Split(path, '/'), false), '/')
              && (Normalised(path) == ".." || "../" <= Normalised(path))
  {
    var comps := Split(path, '/');
    CollapseIsWalk(comps);
    CollapseParts(comps, false);
    var stack := Collapse(comps, false);
    assert "//"[..0] + Join(stack, '/') == Join(stack, '/');
    if stack != [] {
      JoinEnds(stack, '/');
    }
  }

  /** `t in s` for strings. */
  predicate Contains(s: string, t: string) {
    t <= s || (s != "" && Contains(s[1..], t))
  }

  lemma {:induction false} ContainsSplits(s: string, t: string) returns (a: string, b: string)
    requires Contains(s, t)
    ensures s == a + t + b
  {
    if t <= s {
      a, b := "", s[|t|..];
    } else {
      a, b := ContainsSplits(s[1..], t);
      a := [s[0]] + a;
    }
  }

  /** "/../" shows up between slashes only if ".." is a segment. */
  lemma DotDotBetweenSlashes(s: string)
    requires Contains("/" + s + "/", "/../")
    ensures ".." in Split(s, '/')
  {
    var whole := "/" + s + "/";
    var a, b := ContainsSplits(whole, "/../");
    SplitBetweenSlashes(s);
    assert whole == a + ['/'] + (".." + ['/'] + b);
    SplitConcat(a, ".." + ['/'] + b, '/');
    SplitConcat("..", b, '/');
    SplitAtom("..", '/');
    assert Split(whole, '/')[|Split(a, '/')|] == "..";
  }

  lemma SplitBetweenSlashes(s: string)
    ensures Split("/" + s + "/", '/') == [""] + (Split(s, '/') + [""])
  {
    assert "/" + s + "/" == "" + ['/'] + (s + ['/'] + "");
    SplitConcat("", s + ['/'] + "", '/');
    SplitConcat(s, "", '/');
  }
}
