/** The sender's worker as the code runs it; each pass of its loop is a pass of `Passes`, whatever the file holds. */
module Sender {
  import opened Bytes
  import opened Frames
  import R = Ring
  import opened RingFile
  import opened Codec
  import opened Pipeline
  import opened Passes

  /** The next `n` records are saved, ending in `goal`. */
  ghost predicate SavesTo(s: Queues, n: nat, shrink: bool, goal: Queues) {
    After(s, Saves(n, shrink)) == goal
  }

  lemma {:induction false} SavesStep(s: Queues, n: nat, shrink: bool, goal: Queues)
    requires SavesTo(s, n, shrink, goal) && n > 0 && s.saving != []
    ensures SavesTo(Next(s, SaveOne(shrink)), n - 1, shrink, goal)
  {
    SavesUnroll(n, shrink);
  }

  lemma {:induction false} SavesNone(s: Queues, shrink: bool, goal: Queues)
    requires SavesTo(s, 0, shrink, goal)
    ensures s == goal
  {
    assert Saves(0, shrink) == [];
  }

  class MqttSender {
    var sending: seq<Message>
    var incoming: seq<Message>
    const ring: RingBuFi
    ghost var accepted: seq<Message>
    ghost var sent: seq<Message>

    ghost function Snapshot(saving: seq<Message>): Queues
      reads this, ring
    {
      Queues(accepted, sent, sending, ring.State(), saving, incoming)
    }

    constructor (cache: RingBuFi)
      ensures ring == cache && Snapshot([]) == Start(cache.State())
      ensures RingFine(cache.State()) ==> Inv(Snapshot([]))
    {
      ring := cache;
      sending, incoming, sent := [], [], [];
      accepted := Sees(R.Contents(cache.State()));
      new;
      if RingFine(cache.State()) { StartIsGood(cache.State()); }
    }

    /** `mqtt_send`, once the broker is not known to be bad: the message goes to the end of the list. */
    method MqttSend(m: Message)
      modifies this
      ensures Snapshot([]) == Next(old(Snapshot([])), Enqueue(m))
      ensures old(Inv(Snapshot([]))) && Fine(m) ==> Inv(Snapshot([]))
    {
      if Inv(Snapshot([])) && Fine(m) { StepKeeps(Snapshot([]), Enqueue(m)); }
      incoming := incoming + [m];
      accepted := accepted + [m];
    }

    method SaveRecord(tosave: seq<Message>, shrink: bool)
      requires tosave != []
      modifies ring
      ensures Snapshot(tosave[1..]) == Next(old(Snapshot(tosave)), SaveOne(shrink))
    {
      var cached := ring.PutWords(Serialize(tosave[0]), shrink);
    }

    method SaveAll(saving: seq<Message>, shrink: bool)
      modifies ring
      ensures Snapshot([]) == After(old(Snapshot(saving)), Saves(|saving|, shrink))
    {
      ghost var goal := After(Snapshot(saving), Saves(|saving|, shrink));
      var tosave := saving;
      while tosave != []
        invariant SavesTo(Snapshot(tosave), |tosave|, shrink, goal)
      {
        SavesStep(Snapshot(tosave), |tosave|, shrink, goal);
        SaveRecord(tosave, shrink);
        tosave := tosave[1..];
      }
      SavesNone(Snapshot([]), shrink, goal);
    }

    method FlushIncomingQueueToFile(shrink: bool)
      modifies this`incoming, ring
      ensures Snapshot([]) == After(old(Snapshot([])), FlushEvents(|old(incoming)|, shrink))
    {
      if incoming != [] {
        ghost var before := Snapshot([]);
        AfterOne(before, Detach);
        SavesAreLegal(Next(before, Detach), shrink);
        AfterConcat(before, [Detach], Saves(|incoming|, shrink));
        var tosave := incoming;
        incoming := [];
        assert Snapshot(tosave) == Next(before, Detach);
        SaveAll(tosave, shrink);
      }
    }

    method FetchFromFile(shrink: bool)
      requires sending == []
      modifies this`sending, ring
      ensures Snapshot([]) == Next(old(Snapshot([])), Fetch(shrink))
    {
      var p := ring.PeekWords();
      ring.PopWords(shrink);
      sending := Fetched(p);
    }

    /** Lines 527-563. From good queues, with every put safe, it leaves good queues. */
    method Refill(shrink: bool)
      modifies this`sending, this`incoming, ring
      ensures Snapshot([]) == Passes.Refill(old(Snapshot([])), shrink)
      ensures old(Inv(Snapshot([])) && AllSafe(Snapshot([]), RefillEvents(Snapshot([]), shrink))) ==> Inv(Snapshot([]))
    {
      ghost var before := Snapshot([]);
      RefillKeeps(before, shrink);
      if sending != [] {
        FlushIncomingQueueToFile(shrink);
      } else if ring.count > 0 {
        ghost var flush := FlushEvents(|incoming|, shrink);
        FlushIsLegal(before, shrink);
        AfterConcat(before, flush, [Fetch(shrink)]);
        FlushIncomingQueueToFile(shrink);
        AfterOne(Snapshot([]), Fetch(shrink));
        FetchFromFile(shrink);
      } else if incoming != [] {
        AfterOne(before, Take);
        sending := incoming;
        incoming := [];
      }
    }

    /** Lines 571-648. */
    method PublishHead(a: Attempt)
      requires sending != []
      modifies this`sending, this`sent
      ensures Snapshot([]) == Next(old(Snapshot([])), AttemptEvent(a))
      ensures old(Inv(Snapshot([]))) ==> Inv(Snapshot([]))
    {
      if Inv(Snapshot([])) { StepKeeps(Snapshot([]), AttemptEvent(a)); }
      if a == KnownBad {
        sending := sending[1..];
      } else if a == Confirmed {
        sent := sent + [sending[0]];
        sending := sending[1..];
      }
    }

    /** One pass of the worker's loop; how the attempt to publish ends comes from outside. */
    method WorkerPass(shrink: bool, a: Attempt)
      modifies this, ring
      ensures Snapshot([]) == Pass(old(Snapshot([])), shrink, a)
      ensures old(Inv(Snapshot([])) && AllSafe(Snapshot([]), RefillEvents(Snapshot([]), shrink))) ==> Inv(Snapshot([]))
    {
      Refill(shrink);
      if sending != [] {
        PublishHead(a);
      }
    }
  }
}
