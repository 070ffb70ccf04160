/** Choosing the machine that takes over a failover entry (FindLatestMachine in scope/machine.go). */
module LatestMachine {
  import opened Base

  datatype Machine = Machine(name: string, created: int)

  /** `m` is another machine, none of the others is newer, and those after it are strictly older. */
  ghost predicate IsLatestOther(machines: seq<Machine>, self: string, i: int) {
    && 0 <= i < |machines| && machines[i].name != self
    && (forall j | 0 <= j < |machines| && machines[j].name != self :: machines[j].created <= machines[i].created)
    && (forall j | i < j < |machines| && machines[j].name != self :: machines[j].created < machines[i].created)
  }

  lemma LatestOtherIsOne(machines: seq<Machine>, self: string, i: int, j: int)
    requires IsLatestOther(machines, self, i) && IsLatestOther(machines, self, j)
    ensures i == j
  {
  }

  /** The receiver is listed first and every other machine is strictly older. */
  predicate Outshone(machines: seq<Machine>, self: string) {
    && machines != [] && machines[0].name == self
    && forall j | 0 <= j < |machines| && machines[j].name != self :: machines[j].created < machines[0].created
  }

  method FindLatestMachine(machines: seq<Machine>, self: string) returns (r: Option<Machine>)
    ensures r.Some? ==> exists i :: 0 <= i < |machines| && machines[i] == r.value && IsLatestOther(machines, self, i)
    ensures r.None? <==> ReturnsNil(machines, self)
  {
    if |machines| <= 1 { return None; }
    var latest := machines[0];
    ghost var at := 0;
    var i := 0;
    while i < |machines|
      invariant 0 <= i <= |machines| && 0 <= at < |machines| && latest == machines[at]
      invariant at < i || at == 0
      invariant latest.name == self ==> at == 0
      invariant forall j | 0 <= j < i && machines[j].name != self :: machines[j].created <= latest.created
      invariant forall j | at < j < i && machines[j].name != self :: machines[j].created < latest.created
      invariant machines[0].name == self ==> latest.name == self || latest.created >= machines[0].created
    {
      var machine := machines[i];
      if !(machine.created < latest.created) && machine.name != self {
        latest, at := machine, i;
      }
      i := i + 1;
    }
    if latest.name == self { return None; }
    assert IsLatestOther(machines, self, at);
    return Some(latest);
  }

  /** Whether there is another machine at all: what the documentation makes the result depend on. */
  predicate HasOther(machines: seq<Machine>, self: string) {
    exists i | 0 <= i < |machines| :: machines[i].name != self
  }

  /** When the method returns nil. */
  predicate ReturnsNil(machines: seq<Machine>, self: string) {
    |machines| <= 1 || Outshone(machines, self)
  }

  /**
   The documented promise, nil only if no other machine is listed, holds exactly if the list is not
   just one other machine and does not start with a receiver newer than all the others.
   */
  lemma NilOnlyWithoutOthersIff(machines: seq<Machine>, self: string)
    ensures (ReturnsNil(machines, self) <==> !HasOther(machines, self)) <==>
      (!(|machines| == 1 && machines[0].name != self) && !(Outshone(machines, self) && HasOther(machines, self)))
  {
    if |machines| > 1 && !HasOther(machines, self) { assert machines[0].name == self; }
  }

  /** It fails, for instance, for the newest of two machines: nobody takes over. */
  lemma PromiseFails()
    ensures exists machines, self :: HasOther(machines, self) && ReturnsNil(machines, self) && |machines| > 1
  {
    var machines := [Machine("b", 2), Machine("a", 1)];
    assert machines[1].name != "b";
    assert HasOther(machines, "b") && ReturnsNil(machines, "b");
  }
}
