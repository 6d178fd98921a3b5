/** The player count a client shows: derived on every change of the room's
    `presence` subtree, whose children map participant ids to a liveness
    flag. */
module Presence {
  import opened Snapshot

  /** `Object.values(presence).filter(v => v === true).length`, walking the
      children in enumeration order. An absent subtree (`snapshot.val()` is
      null, replaced by `{}`) is the empty list. The count is at most the
      number of children, and is zero exactly when no child is `true`. */
  function LiveCount(entries: seq<Entry<JsValue>>): (n: nat)
    ensures n <= |entries|
    ensures n == 0 <==> forall i :: 0 <= i < |entries| ==> entries[i].1 != Bool(true)
  {
    if entries == [] then 0
    else
      var rest := LiveCount(entries[1..]);
      assert forall i :: 1 <= i < |entries| ==> entries[i] == entries[1..][i - 1];
      (if entries[0].1 == Bool(true) then 1 else 0) + rest
  }

  /** The participants whose entry is exactly `true`; `false`, numbers,
      strings, null and objects mark nobody present. */
  function LiveParticipants(entries: seq<Entry<JsValue>>): set<string> {
    set p | p in entries && p.1 == Bool(true) :: p.0
  }

  /** The count shown is the number of participants marked present. */
  lemma {:induction false} LiveCountIsLiveParticipants(entries: seq<Entry<JsValue>>)
    requires KeysDistinct(entries)
    ensures LiveCount(entries) == |LiveParticipants(entries)|
  {
    if entries != [] {
      var first, rest := entries[0], entries[1..];
      assert KeysDistinct(rest);
      LiveCountIsLiveParticipants(rest);
      assert entries == [first] + rest;
      assert first.0 !in LiveParticipants(rest);
      if first.1 == Bool(true) {
        assert LiveParticipants(entries) == {first.0} + LiveParticipants(rest);
      } else {
        assert LiveParticipants(entries) == LiveParticipants(rest);
      }
    }
  }

  /** Clients that receive the same presence snapshot show the same count,
      whatever order its children are enumerated in. */
  lemma PresenceOrderIrrelevant(e1: seq<Entry<JsValue>>, e2: seq<Entry<JsValue>>)
    requires KeysDistinct(e1) && KeysDistinct(e2)
    requires SameSnapshot(e1, e2)
    ensures LiveCount(e1) == LiveCount(e2)
  {
    LiveCountIsLiveParticipants(e1);
    LiveCountIsLiveParticipants(e2);
    SameSnapshotSameElements(e1, e2);
    assert LiveParticipants(e1) == LiveParticipants(e2);
  }

  /** The count never exceeds the number of entries, and reaches it exactly
      when every entry is `true`. */
  lemma {:induction false} LiveCountBounds(entries: seq<Entry<JsValue>>)
    ensures LiveCount(entries) <= |entries|
    ensures LiveCount(entries) == |entries| <==> forall i :: 0 <= i < |entries| ==> entries[i].1 == Bool(true)
  {
    if entries != [] {
      LiveCountBounds(entries[1..]);
      if LiveCount(entries) == |entries| {
        forall i | 0 <= i < |entries|
          ensures entries[i].1 == Bool(true)
        {
          if i > 0 {
            assert entries[i] == entries[1..][i - 1];
          }
        }
      }
    }
  }
}
