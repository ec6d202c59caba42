/**
 * The lock-free pending counter under any interleaving of any number of CPUs.
 *
 * The low half of the word counts reservations, the high half remembers the largest count reached.
 */
module PendingCounter {
  import opened Common
  import opened PackedWord

  /** Where one CPU stands in reserve and release. */
  datatype Cpu = Idle | Loaded(attempt: nat, seen: nat) | Holding

  /** The shared word, every CPU, and an observer's record of the largest number of simultaneous holders. */
  datatype State = State(word: nat, cpus: seq<Cpu>, largest: nat)

  datatype Event = Load(cpu: nat) | Swap(cpu: nat) | Release(cpu: nat)

  function Holders(cpus: seq<Cpu>): nat {
    if cpus == [] then 0 else Holders(cpus[..|cpus| - 1]) + if cpus[|cpus| - 1] == Holding then 1 else 0
  }

  function Observe(s: State): State {
    s.(largest := Max(s.largest, Holders(s.cpus)))
  }

  /** The value the loop tries to install. */
  function Reserved(seen: nat): nat {
    Pack(Max(Lo(seen) + 1, Hi(seen)), Lo(seen) + 1)
  }

  /**
   * One atomic step. Load reads the word; Swap is the body after the read, ending in the compare-and-swap;
   * Release is the atomic subtraction.
   */
  function Step(limit: nat, s: State, e: Event): State {
    if e.cpu >= |s.cpus| then s
    else
      match (e, s.cpus[e.cpu])
      case (Load(c), Idle) => s.(cpus := s.cpus[c := Loaded(0, s.word)])
      case (Swap(c), Loaded(attempt, seen)) =>
        if Lo(seen) >= limit then s.(cpus := s.cpus[c := Idle])
        else if s.word == seen then Observe(s.(word := Reserved(seen), cpus := s.cpus[c := Holding]))
        else if attempt + 1 < CAS_ATTEMPTS then s.(cpus := s.cpus[c := Loaded(attempt + 1, s.word)])
        else s.(cpus := s.cpus[c := Idle])
      case (Release(c), Holding) =>
        s.(word := if s.word == 0 then 0xFFFF_FFFF_FFFF_FFFF else s.word - 1, cpus := s.cpus[c := Idle])
      case _ => s
  }

  function Start(n: nat): State {
    State(0, seq(n, i => Idle), 0)
  }

  function Run(limit: nat, n: nat, events: seq<Event>): State {
    if events == [] then Start(n) else Step(limit, Run(limit, n, events[..|events| - 1]), events[|events| - 1])
  }

  predicate Inv(limit: nat, s: State) {
    && Lo(s.word) == Holders(s.cpus) <= limit
    && Hi(s.word) == s.largest <= limit
    && Holders(s.cpus) <= s.largest
    && forall c :: 0 <= c < |s.cpus| && s.cpus[c].Loaded? ==> s.cpus[c].attempt < CAS_ATTEMPTS
  }

  lemma {:induction false} HoldersUpdate(cpus: seq<Cpu>, c: nat, x: Cpu)
    requires c < |cpus|
    ensures Holders(cpus[c := x]) ==
            Holders(cpus) - (if cpus[c] == Holding then 1 else 0) + (if x == Holding then 1 else 0)
    ensures cpus[c] == Holding ==> Holders(cpus) > 0
  {
    var n := |cpus| - 1;
    if c < n {
      HoldersUpdate(cpus[..n], c, x);
      assert cpus[c := x][..n] == cpus[..n][c := x];
    } else {
      assert cpus[c := x][..n] == cpus[..n];
    }
  }

  lemma {:induction false} NoHolders(cpus: seq<Cpu>)
    requires forall c :: 0 <= c < |cpus| ==> cpus[c] == Idle
    ensures Holders(cpus) == 0
  {
    if cpus != [] { NoHolders(cpus[..|cpus| - 1]); }
  }

  lemma ReserveKeepsInv(limit: nat, s: State, c: nat)
    requires limit < 0x1_0000_0000 && Inv(limit, s)
    requires c < |s.cpus| && s.cpus[c] != Holding && Lo(s.word) < limit
    ensures Inv(limit, Observe(s.(word := Reserved(s.word), cpus := s.cpus[c := Holding])))
  {
    HoldersUpdate(s.cpus, c, Holding);
    PackParts(Max(Lo(s.word) + 1, Hi(s.word)), Lo(s.word) + 1);
  }

  /** A holder's subtraction is exact: the word is positive and the peak half is untouched. */
  lemma ReleaseKeepsInv(limit: nat, s: State, c: nat)
    requires Inv(limit, s) && c < |s.cpus| && s.cpus[c] == Holding
    ensures s.word > 0 && Hi(s.word - 1) == Hi(s.word)
    ensures Inv(limit, s.(word := s.word - 1, cpus := s.cpus[c := Idle]))
  {
    HoldersUpdate(s.cpus, c, Idle);
    DecrementLo(s.word);
  }

  /** Steps that leave the word alone only move a CPU that holds nothing. */
  lemma MoveKeepsInv(limit: nat, s: State, c: nat, x: Cpu)
    requires Inv(limit, s) && c < |s.cpus| && s.cpus[c] != Holding && x != Holding
    requires x.Loaded? ==> x.attempt < CAS_ATTEMPTS
    ensures Inv(limit, s.(cpus := s.cpus[c := x]))
  {
    HoldersUpdate(s.cpus, c, x);
  }

  lemma StepKeepsInv(limit: nat, s: State, e: Event)
    requires limit < 0x1_0000_0000 && Inv(limit, s)
    ensures Inv(limit, Step(limit, s, e))
  {
    if e.cpu < |s.cpus| {
      match (e, s.cpus[e.cpu])
      case (Load(c), Idle) => MoveKeepsInv(limit, s, c, Loaded(0, s.word));
      case (Swap(c), Loaded(attempt, seen)) =>
        MoveKeepsInv(limit, s, c, Idle);
        if attempt + 1 < CAS_ATTEMPTS { MoveKeepsInv(limit, s, c, Loaded(attempt + 1, s.word)); }
        if Lo(seen) < limit && s.word == seen { ReserveKeepsInv(limit, s, c); }
      case (Release(c), Holding) => ReleaseKeepsInv(limit, s, c);
      case _ =>
    }
  }

  /**
   * In every run the low half is the number of CPUs holding a reservation and never exceeds the limit, and the high
   * half is the largest number that ever held one at once.
   */
  lemma {:induction false} CounterExact(limit: nat, n: nat, events: seq<Event>)
    requires limit < 0x1_0000_0000
    ensures var s := Run(limit, n, events);
            Lo(s.word) == Holders(s.cpus) && Holders(s.cpus) <= limit && Hi(s.word) == s.largest
    ensures Inv(limit, Run(limit, n, events))
  {
    if events == [] {
      NoHolders(Start(n).cpus);
    } else {
      CounterExact(limit, n, events[..|events| - 1]);
      StepKeepsInv(limit, Run(limit, n, events[..|events| - 1]), events[|events| - 1]);
    }
  }

  /** The recorded peak is reached by some prefix of the run and exceeded by none. */
  lemma {:induction false} PeakIsReached(limit: nat, n: nat, events: seq<Event>) returns (k: nat)
    ensures k <= |events| && Holders(Run(limit, n, events[..k]).cpus) == Run(limit, n, events).largest
    ensures forall j :: 0 <= j <= |events| ==> Holders(Run(limit, n, events[..j]).cpus) <= Run(limit, n, events).largest
  {
    hide Step, Holders;
    if events == [] {
      k := 0;
      NoHolders(Start(n).cpus);
      assert forall j :: 0 <= j <= 0 ==> events[..j] == [];
    } else {
      var m := |events| - 1;
      var init := events[..m];
      var before, after := Run(limit, n, init), Run(limit, n, events);
      k := PeakIsReached(limit, n, init);
      StepObserved(limit, before, events[m]);
      assert events[..|events|] == events;
      if after.largest != before.largest { k := |events|; } else { assert events[..k] == init[..k]; }
      BeforeBounded(limit, n, init);
      forall j | 0 <= j <= |events|
        ensures Holders(Run(limit, n, events[..j]).cpus) <= after.largest
      {
        if j <= m { assert events[..j] == init[..j]; }
      }
    }
  }

  /** A step that does not reserve never raises the number of holders. */
  lemma StepObserved(limit: nat, s: State, e: Event)
    ensures var r := Step(limit, s, e);
            && s.largest <= r.largest
            && (r.largest == s.largest || r.largest == Holders(r.cpus))
            && (Holders(s.cpus) <= s.largest ==> Holders(r.cpus) <= r.largest)
  {
    hide Holders, Lo, Reserved;
    if e.cpu < |s.cpus| {
      HoldersUpdate(s.cpus, e.cpu, Idle);
      HoldersUpdate(s.cpus, e.cpu, Holding);
      HoldersUpdate(s.cpus, e.cpu, Loaded(0, s.word));
      if s.cpus[e.cpu].Loaded? { HoldersUpdate(s.cpus, e.cpu, Loaded(s.cpus[e.cpu].attempt + 1, s.word)); }
    }
  }

  lemma {:induction false} BeforeBounded(limit: nat, n: nat, events: seq<Event>)
    ensures Holders(Run(limit, n, events).cpus) <= Run(limit, n, events).largest
  {
    if events == [] {
      NoHolders(Start(n).cpus);
    } else {
      BeforeBounded(limit, n, events[..|events| - 1]);
      StepObserved(limit, Run(limit, n, events[..|events| - 1]), events[|events| - 1]);
    }
  }
}
