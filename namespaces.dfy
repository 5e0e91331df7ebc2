/** How handles name their children: `createEvents(namespace ? `${namespace}.${ns}` : ns)`. */
module Namespaces {

  /** The namespace a handle for `parent` asks for when called with `seg`.
      The empty string stands for every falsy namespace (the root included). */
  function ChildNamespace(parent: string, seg: string): string
  {
    if parent != "" then parent + "." + seg else seg
  }

  /** The namespace reached from the root by calling handles with `segs` in
      order. */
  function Resolve(segs: seq<string>): string {
    if segs == [] then "" else ChildNamespace(Resolve(segs[..|segs| - 1]), segs[|segs| - 1])
  }

  /** The segments joined with dots. */
  function Join(segs: seq<string>): string {
    if segs == [] then ""
    else if |segs| == 1 then segs[0]
    else Join(segs[..|segs| - 1]) + "." + segs[|segs| - 1]
  }

  /** With non-empty segments, descending from the root yields the dot-joined
      path. */
  lemma {:induction false} ResolveJoins(segs: seq<string>)
    requires forall i :: 0 <= i < |segs| ==> segs[i] != ""
    ensures Resolve(segs) == Join(segs)
    ensures segs != [] ==> Resolve(segs) != ""
  {
    if |segs| > 1 {
      var init := segs[..|segs| - 1];
      ResolveJoins(init);
      assert init[..|init| - 1] == segs[..|segs| - 2];
    } else if |segs| == 1 {
      assert segs[..0] == [];
    }
  }

  /** Paths are not kept apart by their segments: a segment holding a dot
      names the same namespace as the two segments around it. */
  lemma DottedSegmentAliases()
    ensures Resolve(["a.b"]) == Resolve(["a", "b"]) == "a.b"
  {
    assert ["a.b"][..0] == [];
    assert ["a", "b"][..1] == ["a"];
    assert ["a"][..0] == [];
  }
}
