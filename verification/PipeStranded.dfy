/**
 A run that strands a reader: it sleeps on the empty pipe, a writer of more than PIPESIZE bytes
 fills the pipe and is killed, and returns from the full pipe without waking it.
 */
module PipeStranded {
  import opened PipeRing
  import Paths

  ghost function Steps(): (next: (St, Action, St) -> bool) {
    (s: St, a: Action, t: St) => Next(s, a, t)
  }

  function Zeros(n: nat): (r: seq<int>)
    ensures |r| == n && forall i :: 0 <= i < n ==> r[i] == 0
  {
    seq(n, i => 0)
  }

  const TOO_MUCH: nat := PIPESIZE + 1

  // A reader and a writer, at these places, k bytes in the pipe.
  function At(reader: Pc, writer: Pc, killed: set<nat>, lock: Lock, k: nat): (s: St) {
    St([reader, writer], killed, lock, Ring(Zeros(PIPESIZE), 0, k, seq(k, i => Cell(1, 0)), []), true, true)
  }

  // The writer in its loop, the first k bytes stored.
  function Filling(k: nat, killed: set<nat>): (s: St) {
    At(RAsleep(1), WLoop(Zeros(TOO_MUCH), 0, seq(k, i => i)), killed, By(1), k)
  }

  lemma ReaderSleeps(o: St) returns (s: St)
    requires o == At(Idle, Idle, {}, Free, 0)
    ensures Paths.Reach(Steps(), o, s) && s == At(RAsleep(1), Idle, {}, Free, 0)
  {
    var s1, s2 := At(RTake(1), Idle, {}, Free, 0), At(RTest(1), Idle, {}, By(0), 0);
    s := At(RAsleep(1), Idle, {}, Free, 0);
    assert Next(o, CallRead(0, 1), s1);
    assert Next(s1, Take(0), s2);
    assert Next(s2, ReadSleeps(0), s);
    Paths.Here(Steps(), o);
    Paths.Then(Steps(), o, o, CallRead(0, 1), s1);
    Paths.Then(Steps(), o, s1, Take(0), s2);
    Paths.Then(Steps(), o, s2, ReadSleeps(0), s);
  }

  lemma StoreOne(k: nat)
    requires k < PIPESIZE
    ensures Next(Filling(k, {}), Store(1), Filling(k + 1, {}))
  {
    var s, t := Filling(k, {}), Filling(k + 1, {});
    assert s.ring.stored + [Cell(1, 0)] == t.ring.stored;
    assert s.pc[1].at + [k] == t.pc[1].at;
    assert s.ring.data[k := 0] == s.ring.data;
  }

  lemma {:induction false} Fills(o: St, k: nat)
    requires Paths.Reach(Steps(), o, Filling(0, {})) && k <= PIPESIZE
    ensures Paths.Reach(Steps(), o, Filling(k, {}))
  {
    if k > 0 {
      Fills(o, k - 1);
      StoreOne(k - 1);
      Paths.Then(Steps(), o, Filling(k - 1, {}), Store(1), Filling(k, {}));
    }
  }

  lemma WriterStarts(o: St)
    requires Paths.Reach(Steps(), o, At(RAsleep(1), Idle, {}, Free, 0))
    ensures Paths.Reach(Steps(), o, Filling(0, {}))
  {
    var s, s1 := At(RAsleep(1), Idle, {}, Free, 0), At(RAsleep(1), WTake(Zeros(TOO_MUCH), 0, []), {}, Free, 0);
    var call := CallWrite(1, Zeros(TOO_MUCH));
    assert Next(s, call, s1);
    Paths.Then(Steps(), o, s, call, s1);
    assert Filling(0, {}).pc[1].at == [];
    assert Next(s1, Take(1), Filling(0, {}));
    Paths.Then(Steps(), o, s1, Take(1), Filling(0, {}));
  }

  lemma WriterDies(o: St)
    requires Paths.Reach(Steps(), o, Filling(PIPESIZE, {}))
    ensures Paths.Reach(Steps(), o, At(RAsleep(1), Idle, {1}, Free, PIPESIZE))
  {
    var full, dead := Filling(PIPESIZE, {}), Filling(PIPESIZE, {1});
    assert Next(full, Kill(1), dead);
    Paths.Then(Steps(), o, full, Kill(1), dead);
    var r := At(RAsleep(1), Idle, {1}, Free, PIPESIZE);
    assert Next(dead, GiveUp(1), r);
    Paths.Then(Steps(), o, dead, GiveUp(1), r);
  }

  lemma StrandedHappens() returns (o: St, r: St)
    ensures Init(o) && Paths.Reach(Steps(), o, r) && Stranded(r) && Full(r.ring) && r.writeopen
  {
    o, r := At(Idle, Idle, {}, Free, 0), At(RAsleep(1), Idle, {1}, Free, PIPESIZE);
    var s := ReaderSleeps(o);
    WriterStarts(o);
    Fills(o, PIPESIZE);
    WriterDies(o);
    assert r.pc[0].RAsleep?;
  }
}
