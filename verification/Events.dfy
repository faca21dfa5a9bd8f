/**
 * Chat events. `ts` is the create time in milliseconds; `noise`, `topic` and `closure` are what the
 * text predicates say of the message text; an empty `topic` or `parent` means there is none.
 */
module Events {
  datatype Role = User | Bot

  datatype Event = Event(id: string, parent: string, ts: int, role: Role, noise: bool, topic: string, closure: bool)

  const ByTs: Event -> int := (e: Event) => e.ts

  ghost predicate DistinctIds(evs: seq<Event>) {
    && (forall i :: 0 <= i < |evs| ==> evs[i].id != "")
    && (forall i, j :: 0 <= i < j < |evs| ==> evs[i].id != evs[j].id)
  }
}
