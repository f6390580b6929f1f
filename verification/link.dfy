/**
 * `LLink`: one edge of the graph, from output slot `originSlot` of node
 * `originId` to input slot `targetSlot` of node `targetId`, plus the last
 * value that travelled along it.
 */
module Link {
  import opened Base
  import opened SlotTypes

  datatype LLink = LLink(
    id: int,
    ltype: SlotType,
    originId: int,
    originSlot: int,
    targetId: int,
    targetSlot: int,
    data: JsVal)

  /** The positional form `serialize` produces: `[id, origin_id, origin_slot, target_id, target_slot, type]`. */
  type LinkTuple = (int, int, int, int, int, SlotType)

  /** The two shapes `configure` accepts. */
  datatype LinkInfo =
    | LinkArray(tuple: LinkTuple)
    | LinkObject(id: int, ltype: SlotType, originId: int, originSlot: int, targetId: int, targetSlot: int)

  /** `new LLink(id, type, origin_id, origin_slot, target_id, target_slot)`: no data has travelled yet. */
  function NewLink(id: int, ltype: SlotType, originId: int, originSlot: int, targetId: int, targetSlot: int): (l: LLink)
    ensures l.data == Undef
    ensures Serialize(l) == (id, originId, originSlot, targetId, targetSlot, ltype)
  {
    LLink(id, ltype, originId, originSlot, targetId, targetSlot, Undef)
  }

  function Serialize(l: LLink): (t: LinkTuple)
  {
    (l.id, l.originId, l.originSlot, l.targetId, l.targetSlot, l.ltype)
  }

  /** `link.configure(o)`: overwrite the six fields from either shape; the carried data is kept. */
  function Configure(l: LLink, o: LinkInfo): (r: LLink)
    ensures r.data == l.data
    ensures o.LinkArray? ==> Serialize(r) == o.tuple
    ensures o.LinkObject? ==>
      r.id == o.id && r.ltype == o.ltype && r.originId == o.originId && r.originSlot == o.originSlot &&
      r.targetId == o.targetId && r.targetSlot == o.targetSlot
  {
    match o
    case LinkArray(t) => l.(id := t.0, originId := t.1, originSlot := t.2, targetId := t.3, targetSlot := t.4, ltype := t.5)
    case LinkObject(id, ty, oi, os, ti, ts) => l.(id := id, ltype := ty, originId := oi, originSlot := os, targetId := ti, targetSlot := ts)
  }

  /** Configuring any link from a serialized link reproduces it, apart from the carried data. */
  lemma ConfigureSerializeRoundTrip(l: LLink, blank: LLink)
    ensures Configure(blank, LinkArray(Serialize(l))) == l.(data := blank.data)
  {
  }

  /** Serializing a link configured from a tuple gives the tuple back. */
  lemma SerializeConfigureRoundTrip(blank: LLink, t: LinkTuple)
    ensures Serialize(Configure(blank, LinkArray(t))) == t
  {
  }

  /** The array and the object shape describe the same link. */
  lemma ConfigureShapesAgree(blank: LLink, t: LinkTuple)
    ensures Configure(blank, LinkArray(t)) == Configure(blank, LinkObject(t.0, t.5, t.1, t.2, t.3, t.4))
  {
  }
}
