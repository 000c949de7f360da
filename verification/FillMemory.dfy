/** Filling a size template in memory: the template is scaled, and then merged into the user's settings although the two
    refer to common maps by then. */
module FillMemory {
  import opened Trees
  import opened ResourceComparison
  import opened Merging
  import opened Shrinking
  import opened Heaps
  import opened MergeMemory
  import opened ShrinkMemory

  /** Fills the template's spec at `d` with the user's at `changed`, as the bootstrap extractor does: the user's map
      ends up with the merge of the two trees as they were given. Neither what the scaling did to the template nor what
      scaled template and user share shows in it. */
  method FillSpec(mem: Memory, q: Quantities, d: Address, changed: Address, ghost t: Fields, ghost ownD: set<Address>,
                  ghost u: Fields, ghost ownC: set<Address>) returns (spec: Address, ghost own: set<Address>)
    requires StoresMap(mem.cells, d, Obj(t), ownD) && StoresMap(mem.cells, changed, Obj(u), ownC) && ownD !! ownC
    requires ownD <= mem.cells.Keys && ownC <= mem.cells.Keys && ShrinkObjDefined(Obj(t), Obj(u))
    requires MergeObjDefined(UserWins, Obj(Shrink(q, Max, t, u)), Obj(u))
    modifies mem
    ensures spec == changed && StoresMap(mem.cells, spec, Obj(Merge(UserWins, t, u)), own)
  {
    var scaled; ghost var ownR;
    scaled, ownR := ShrinkSize(mem, q, Max, d, changed, t, ownD, u, ownC);
    mem.MergeInto(UserWins, changed, scaled, u, ownC, Shrink(q, Max, t, u), ownR, u.Keys - t.Keys);
    ShrinkAbsorbed(q, Max, t, u);
    spec, own := changed, ownC + ownR;
  }
}
