/**
 * The parts of Python's `pathlib` the orchestrator relies on: matching
 * `glob('*.md')` and `Path.stem`, and the plan file name built from it.
 */
module Paths {
  import opened Seqs

  /** A name `glob('*.md')` matches: it ends in ".md" (case-sensitive, as on
      POSIX; `*` may be empty and may start with a dot). */
  predicate IsMd(name: string) {
    |name| >= 3 && name[|name| - 3..] == ".md"
  }

  /** `glob('*.md')` over one listing of a folder, in listing order. */
  function MdOnly(listing: seq<string>): (files: seq<string>)
    ensures forall f :: f in files <==> f in listing && IsMd(f)
    ensures Distinct(listing) ==> Distinct(files)
    ensures |files| <= |listing|
  {
    if listing == [] then []
    else (if IsMd(listing[0]) then [listing[0]] else []) + MdOnly(listing[1..])
  }

  /** `name.rfind('.')`: the index of the last dot, or -1. */
  function LastDot(name: string): (i: int)
    ensures -1 <= i < |name|
    ensures i >= 0 ==> name[i] == '.'
    ensures forall j :: i < j < |name| ==> name[j] != '.'
  {
    if name == [] then -1
    else if name[|name| - 1] == '.' then |name| - 1
    else LastDot(name[..|name| - 1])
  }

  /** `Path(name).stem`: the name without its last suffix, where a suffix
      needs a dot that is neither the first nor the last character. */
  function Stem(name: string): string {
    var i := LastDot(name);
    if 0 < i < |name| - 1 then name[..i] else name
  }

  /** The plan `_process_single_file` writes for an action file. */
  function PlanName(name: string): string {
    "PLAN_" + Stem(name) + ".md"
  }

  /** The stem of a markdown file is the name without ".md", except for the
      bare name ".md", which has no suffix and is its own stem. */
  lemma MdStem(name: string)
    requires IsMd(name)
    ensures Stem(name) == if name == ".md" then name else name[..|name| - 3]
    ensures name != ".md" ==> name == Stem(name) + ".md"
  {
    assert name[|name| - 3] == '.';
    if |name| == 3 {
      assert name == ".md";
    }
  }

  /** The plan name determines the stem. */
  lemma PlanNameStem(a: string, b: string)
    requires PlanName(a) == PlanName(b)
    ensures Stem(a) == Stem(b)
  {
    var sa, sb := Stem(a), Stem(b);
    assert |sa| == |sb|;
    assert sa == PlanName(a)[5..5 + |sa|];
    assert sb == PlanName(b)[5..5 + |sb|];
  }

  /**
   * Two different markdown files get the same plan name exactly when they
   * are ".md" and ".md.md": both have the stem ".md", so the second plan
   * written overwrites the first.
   */
  lemma PlanNameCollision(a: string, b: string)
    requires IsMd(a) && IsMd(b) && a != b
    ensures PlanName(a) == PlanName(b) <==> (a == ".md" && b == ".md.md") || (a == ".md.md" && b == ".md")
  {
    MdStem(a);
    MdStem(b);
    if PlanName(a) == PlanName(b) {
      PlanNameStem(a, b);
      if a == ".md" {
        assert b == Stem(b) + ".md";
      } else if b == ".md" {
        assert a == Stem(a) + ".md";
      }
    }
    if a == ".md" && b == ".md.md" {
      assert Stem(b) == ".md";
    }
    if a == ".md.md" && b == ".md" {
      assert Stem(a) == ".md";
    }
  }
}
