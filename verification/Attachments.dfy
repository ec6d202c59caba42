/**
 * The TC attachment set of the packet program: attaching, detaching, pruning to an exact interface set, and verifying
 * that set. Places whose state the kernel refuses to report are an input, and so is whether it is obliging: then it
 * refuses no change it could make.
 */
module Attachments {
  import opened Common

  /** One of the two TC coordinates of an interface: the controller's own, or the one an older release used. */
  datatype Place = Place(iface: string, legacy: bool)

  datatype Query = Absent | Program(id: nat) | Error

  /** Places an exact interface set occupies. */
  predicate Kept(p: Place, keep: set<string>) {
    !p.legacy && p.iface in keep
  }

  function Names(interfaces: seq<string>): set<string> {
    set i | i in interfaces
  }

  class Tc {
    var attached: map<Place, nat>
    var interfaces: seq<string>

    constructor ()
      ensures attached == map[] && interfaces == []
    {
      attached, interfaces := map[], [];
    }

    /** bpf_tc_query */
    function QueryAt(p: Place, unreadable: set<Place>): Query
      reads this
    {
      if p in unreadable then Error else if p in attached then Program(attached[p]) else Absent
    }

    predicate Known(p: Place)
      reads this
    {
      p.iface in interfaces
    }

    predicate OwnedBy(program: nat, p: Place)
      reads this
    {
      p in attached && attached[p] == program
    }

    /** The program is attached at exactly the kept places of the known interfaces. */
    ghost predicate ExactlyAt(program: nat, keep: set<string>)
      reads this
    {
      (forall i :: i in keep ==> OwnedBy(program, Place(i, false))) && NothingBeyond(program, keep)
    }

    /** The program is attached nowhere else on the known interfaces. */
    ghost predicate NothingBeyond(program: nat, keep: set<string>)
      reads this
    {
      forall p :: Known(p) && OwnedBy(program, p) ==> Kept(p, keep)
    }

    /** The body of the pruning loop for one coordinate. */
    method PrunePlace(program: nat, keep: set<string>, p: Place, unreadable: set<Place>, obliging: bool) returns (ok: bool)
      modifies this`attached
      ensures obliging && p !in unreadable ==> ok
      ensures attached == old(attached) || (attached == old(attached) - {p} && old(OwnedBy(program, p)) && !Kept(p, keep))
      ensures ok ==> (OwnedBy(program, p) ==> Kept(p, keep))
    {
      match QueryAt(p, unreadable)
      case Absent => return true;
      case Error => return false;
      case Program(id) =>
        if id != program || Kept(p, keep) { return true; }
        var refused: bool := *;
        if refused && !obliging { return false; }
        attached := attached - {p};
        return true;
    }

    /** Only foreign programs and kept places are sure to survive a pruning; nothing is added or changed. */
    ghost predicate Survives(was: map<Place, nat>, program: nat, keep: set<string>)
      reads this
    {
      && (forall p :: p in attached ==> p in was && attached[p] == was[p])
      && (forall p :: p in was && (was[p] != program || Kept(p, keep)) ==> p in attached)
    }

    /** detach_program_from_interfaces: goes on after a failure and reports it at the end. */
    method DetachExcept(program: nat, keep: set<string>, unreadable: set<Place>, obliging: bool) returns (ok: bool)
      modifies this`attached
      ensures obliging && unreadable == {} ==> ok
      ensures Survives(old(attached), program, keep)
      ensures ok ==> NothingBeyond(program, keep)
    {
      var failures := 0;
      for i := 0 to |interfaces|
        invariant Survives(old(attached), program, keep)
        invariant obliging && unreadable == {} ==> failures == 0
        invariant failures == 0 ==>
                    forall p: Place :: p.iface in interfaces[..i] && OwnedBy(program, p) ==> Kept(p, keep)
      {
        var own := PrunePlace(program, keep, Place(interfaces[i], false), unreadable, obliging);
        var legacy := PrunePlace(program, keep, Place(interfaces[i], true), unreadable, obliging);
        if !own { failures := failures + 1; }
        if !legacy { failures := failures + 1; }
        assert forall p: Place :: p.iface == interfaces[i] ==> p == Place(interfaces[i], false) || p == Place(interfaces[i], true);
        assert forall name :: name in interfaces[..i + 1] <==> name in interfaces[..i] || name == interfaces[i];
      }
      assert interfaces[..|interfaces|] == interfaces;
      ok := failures == 0;
    }

    /** ca_bpf_tc_prune; without a pinned program there is nothing to detach. */
    method Prune(program: Option<nat>, keep: set<string>, unreadable: set<Place>, obliging: bool) returns (ok: bool)
      modifies this`attached
      ensures obliging && unreadable == {} && (forall i :: i in keep ==> i in interfaces) ==> ok
      ensures program.None? ==> attached == old(attached)
      ensures program.Some? ==> Survives(old(attached), program.value, keep)
      ensures ok ==> forall i :: i in keep ==> i in interfaces
      ensures ok && program.Some? ==> NothingBeyond(program.value, keep)
    {
      if !(forall i :: i in keep ==> i in interfaces) { return false; }
      if program.None? { return true; }
      ok := DetachExcept(program.value, keep, unreadable, obliging);
    }

    /**
     * ca_bpf_tc_action with `attach` set: afterwards the program is at the interface's own coordinate, which is never
     * taken from another program; a failure changes nothing.
     */
    method Attach(program: Option<nat>, iface: string, unreadable: set<Place>, obliging: bool) returns (ok: bool)
      modifies this`attached
      ensures ok ==> program.Some? && iface in interfaces && OwnedBy(program.value, Place(iface, false))
      ensures attached == old(attached)
              || (ok && Place(iface, false) !in old(attached) && attached == old(attached)[Place(iface, false) := program.value])
      ensures Place(iface, false) in old(attached) && !Unreadable(unreadable, iface) ==>
                (ok <==> iface in interfaces && program == Some(old(attached)[Place(iface, false)]))
      ensures Place(iface, false) !in old(attached) && !Unreadable(unreadable, iface) && obliging ==>
                (ok <==> iface in interfaces && program.Some?)
    {
      if iface !in interfaces || program.None? { return false; }
      var p := Place(iface, false);
      match QueryAt(p, unreadable)
      case Program(id) => return id == program.value;
      case Error => return false;
      case Absent =>
        var refused: bool := *;
        if refused && !obliging { return false; }
        attached := attached[p := program.value];
        return true;
    }

    /** ca_bpf_tc_action with `attach` clear: refuses to remove another program. */
    method Detach(program: Option<nat>, iface: string, unreadable: set<Place>, obliging: bool) returns (ok: bool)
      modifies this`attached
      ensures attached == old(attached)
              || (program.Some? && old(OwnedBy(program.value, Place(iface, false))) && attached == old(attached) - {Place(iface, false)})
      ensures ok ==> Place(iface, false) !in attached
    {
      if iface !in interfaces || program.None? { return false; }
      var p := Place(iface, false);
      match QueryAt(p, unreadable)
      case Absent => return true;
      case Error => return false;
      case Program(id) =>
        if id != program.value { return false; }
        var refused: bool := *;
        if refused && !obliging { return false; }
        attached := attached - {p};
        return true;
    }

    /** The part of the verification that one coordinate decides. */
    predicate Clean(program: nat, keep: set<string>, unreadable: set<Place>, p: Place)
      reads this
    {
      p !in unreadable && (OwnedBy(program, p) ==> Kept(p, keep))
    }

    /** ca_bpf_tc_verify_program_interfaces: accepts exactly when every coordinate can be read and no place is left over. */
    method VerifyInterfaces(program: nat, keep: set<string>, unreadable: set<Place>) returns (ok: bool)
      ensures ok <==> forall p :: Known(p) ==> Clean(program, keep, unreadable, p)
    {
      for i := 0 to |interfaces|
        invariant forall p: Place :: p.iface in interfaces[..i] ==> Clean(program, keep, unreadable, p)
      {
        var own, legacy := Place(interfaces[i], false), Place(interfaces[i], true);
        assert Known(own) && Known(legacy);
        if !Clean(program, keep, unreadable, own) || !Clean(program, keep, unreadable, legacy) { return false; }
        assert forall p: Place :: p.iface == interfaces[i] ==> p == own || p == legacy;
        assert forall name :: name in interfaces[..i + 1] <==> name in interfaces[..i] || name == interfaces[i];
      }
      assert interfaces[..|interfaces|] == interfaces;
      return true;
    }

    /** The kernel reports the program at the interface's own coordinate. */
    predicate Confirmed(program: nat, unreadable: set<Place>, iface: string)
      reads this
    {
      iface in interfaces && Place(iface, false) !in unreadable && OwnedBy(program, Place(iface, false))
    }

    /** Every expected interface is confirmed, and every coordinate is readable and holds nothing else of ours. */
    ghost predicate Verified(program: nat, expected: seq<string>, unreadable: set<Place>)
      reads this
    {
      && (forall i :: i in expected ==> Confirmed(program, unreadable, i))
      && (forall p :: Known(p) ==> Clean(program, Names(expected), unreadable, p))
    }

    /** The interface loop of ca_bpf_verify_health followed by the exactness check. */
    method VerifyAttachments(program: nat, expected: seq<string>, unreadable: set<Place>) returns (ok: bool)
      ensures ok <==> Verified(program, expected, unreadable)
      ensures ok ==> ExactlyAt(program, Names(expected))
    {
      for n := 0 to |expected|
        invariant forall i :: i in expected[..n] ==> Confirmed(program, unreadable, i)
      {
        assert expected[n] in expected;
        if expected[n] !in interfaces { return false; }
        if QueryAt(Place(expected[n], false), unreadable) != Program(program) { return false; }
        assert forall name :: name in expected[..n + 1] <==> name in expected[..n] || name == expected[n];
      }
      assert expected[..|expected|] == expected;
      ok := VerifyInterfaces(program, Names(expected), unreadable);
    }
  }

  predicate Unreadable(unreadable: set<Place>, iface: string) {
    Place(iface, false) in unreadable
  }
}
