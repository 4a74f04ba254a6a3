/** The relay's marks in Redis: a key per message id with a time to live, and a store that
    may not answer, in which case a message counts as not sent. */
module Dedup {
  import opened Prelude
  import opened CacheKeys

  /** When a mark runs out; None is never, which is what SET does with no expiration. */
  type Marks = map<string, Option<int>>

  predicate Present(marks: Marks, id: int, now: int) {
    MarkKey(id) in marks && (marks[MarkKey(id)].Some? ==> now < marks[MarkKey(id)].value)
  }

  class Dedup {
    const ttl: nat
    var marks: Marks

    constructor (ttl: nat)
      ensures this.ttl == ttl && marks == map[]
    {
      this.ttl, marks := ttl, map[];
    }

    /** True only of a message whose own mark is there and has not run out. */
    method WasSent(id: int, now: int, up: bool) returns (sent: bool)
      ensures sent <==> up && Present(marks, id, now)
    {
      if !up {
        return false;
      }
      var key := MarkKey(id);
      var n := if key in marks && (marks[key].None? || now < marks[key].value) then 1 else 0;
      sent := n > 0;
    }

    /** Marks this message for one time to live from now, and no other; a store that does
        not answer leaves every mark as it was. */
    method MarkSent(id: int, now: int, up: bool)
      modifies this
      ensures forall other, t :: other != id ==> (Present(marks, other, t) <==> Present(old(marks), other, t))
      ensures forall t :: Present(marks, id, t) <==> if up then ttl == 0 || t < now + ttl else Present(old(marks), id, t)
    {
      if up {
        forall other | other != id && MarkKey(other) == MarkKey(id)
          ensures false
        {
          MarkKeyInjective(other, id);
        }
        marks := marks[MarkKey(id) := if ttl == 0 then None else Some(now + ttl)];
      }
    }
  }

  // --- any sequence of marks ---

  datatype Call = Mark(id: int, at: int, reached: bool) | Evict(key: string)

  function After(marks: Marks, call: Call, ttl: nat): Marks {
    match call
    case Mark(id, at, reached) =>
      if reached then marks[MarkKey(id) := if ttl == 0 then None else Some(at + ttl)] else marks
    case Evict(key) => marks - {key}
  }

  function AfterAll(calls: seq<Call>, ttl: nat): Marks {
    if calls == [] then map[] else After(AfterAll(calls[..|calls| - 1], ttl), calls[|calls| - 1], ttl)
  }

  /** A mark that is seen was put there by a call for that very message, less than one time
      to live ago. */
  lemma {:induction false} SeenWasMarked(calls: seq<Call>, ttl: nat, id: int, now: int)
    requires Present(AfterAll(calls, ttl), id, now)
    ensures exists i :: 0 <= i < |calls| && calls[i].Mark? && calls[i].id == id && calls[i].reached
                        && (ttl > 0 ==> now < calls[i].at + ttl)
  {
    var front, last := calls[..|calls| - 1], calls[|calls| - 1];
    if last.Mark? && last.reached && MarkKey(last.id) == MarkKey(id) {
      MarkKeyInjective(last.id, id);
    } else {
      SeenWasMarked(front, ttl, id, now);
      var i :| 0 <= i < |front| && front[i].Mark? && front[i].id == id && front[i].reached
               && (ttl > 0 ==> now < front[i].at + ttl);
      assert calls[i] == front[i];
    }
  }
}
