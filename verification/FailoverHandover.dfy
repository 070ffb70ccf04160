/**
 What a machine that is being deleted leaves in the failover group (ReconcileIPFailoverDeletion in
 network.go): the last machine takes its entry out, any other hands it over to the latest of the
 remaining machines.  The documentation says that otherwise the machine cannot be deleted.
 */
module FailoverHandover {
  import opened Base
  import F = Failover
  import LM = LatestMachine

  /**
   What the step finds.  `counted` and `listed` are the machines with the labels of the group, as
   listed once to count them and once to choose from them; `nic` is the primary NIC of the machine,
   empty if there is none any more; `primaryNics` are those of the machines whose server shows one.
   */
  datatype View = View(
    required: bool, self: string, counted: seq<LM.Machine>, listed: seq<LM.Machine>,
    nic: string, list: seq<F.Entry>, primaryNics: map<string, string>)

  /** Passes: nothing is patched, and the deletion goes on to the server. */
  datatype Result = Passes | Fails | Sends(op: F.Op)

  predicate InGroup(v: View) { F.NicIndex(v.list, v.nic) < |v.list| }

  /** The machine passes although an entry of the group still has its NIC. */
  predicate LeavesEntry(v: View) {
    v.required && InGroup(v) &&
    (|v.counted| == 0 || (|v.counted| == 1 && v.nic == "") || (|v.counted| > 1 && LM.ReturnsNil(v.listed, v.self)))
  }

  /** The latest of the other machines is found, and its server shows this primary NIC. */
  ghost predicate TakesOver(v: View, newNic: string) {
    && !LM.ReturnsNil(v.listed, v.self)
    && exists i ::
      && LM.IsLatestOther(v.listed, v.self, i)
      && v.listed[i].name in v.primaryNics && v.primaryNics[v.listed[i].name] == newNic
  }

  /** The edit the step calls for. */
  ghost predicate Sent(v: View, op: F.Op) {
    && v.required && InGroup(v) && op.nic == v.nic
    && match op
      case Add(_, _) => false
      case Remove(_) => |v.counted| == 1 && v.nic != ""
      case Swap(_, newNic) => |v.counted| > 1 && newNic != "" && TakesOver(v, newNic)
  }

  /**
   It sends a removal exactly if the machine is the last one and in the group, a swap exactly if it
   is in the group and the latest other machine has a NIC to take over, and it lets a machine that is
   in the group pass in exactly the cases above.
   */
  method ReconcileDeletion(v: View) returns (r: Result)
    ensures forall op :: r == Sends(op) <==> Sent(v, op)
    ensures (r.Passes? && v.required && InGroup(v)) <==> LeavesEntry(v)
    ensures r.Fails? <==>
      (&& v.required && |v.counted| > 1 && InGroup(v) && !LM.ReturnsNil(v.listed, v.self)
       && !(exists n :: n != "" && TakesOver(v, n)))
  {
    if !v.required { return Passes; }
    if |v.counted| == 0 { return Passes; }
    var config := new F.FailoverConfig(v.list);
    var index := config.IndexOf(v.nic);
    if |v.counted| == 1 {
      if v.nic == "" || index == |v.list| { return Passes; }
      return Sends(F.Remove(v.nic));
    }
    if index == |v.list| { return Passes; }
    var latest := LM.FindLatestMachine(v.listed, v.self);
    if latest.None? { return Passes; }
    ghost var at :| LM.IsLatestOther(v.listed, v.self, at) && v.listed[at] == latest.value;
    forall i | LM.IsLatestOther(v.listed, v.self, i) ensures i == at { LM.LatestOtherIsOne(v.listed, v.self, i, at); }
    if latest.value.name !in v.primaryNics || v.primaryNics[latest.value.name] == "" { return Fails; }
    return Sends(F.Swap(v.nic, v.primaryNics[latest.value.name]));
  }

  /** Both listings show the same machines, this one among them, and its server has a NIC. */
  predicate Settled(v: View) {
    && v.required && v.nic != "" && v.counted == v.listed
    && exists i | 0 <= i < |v.listed| :: v.listed[i].name == v.self
  }

  /**
   So in the ordinary case a machine leaves its entry behind exactly if it is in the group, others
   remain, and it is listed first and newer than all of them: what a deletion of the newest machine
   of a deployment looks like.
   */
  lemma LeavesEntryIff(v: View)
    requires Settled(v)
    ensures LeavesEntry(v) <==> InGroup(v) && |v.listed| > 1 && LM.Outshone(v.listed, v.self)
  {
    var i :| 0 <= i < |v.listed| && v.listed[i].name == v.self;
  }

  /** The NICs of the group are managed, and the machines share its failover IP, each with its own NIC. */
  predicate OneGroup(d: F.Desired, v: View) {
    && v.nic in d
    && forall m | m in v.primaryNics && m != v.self ::
         v.primaryNics[m] in d && d[v.primaryNics[m]] == d[v.nic] && v.primaryNics[m] != v.nic
  }

  lemma SentIsAllowed(d: F.Desired, v: View, op: F.Op)
    requires OneGroup(d, v) && Sent(v, op)
    ensures F.Allowed(d, op) && F.Patches(op, v.list) && (op.Swap? ==> op.newNic != v.nic)
  {
  }

  /**
   Once what the step sent has landed on a well-kept list, the list is well-kept, foreign entries are
   as they were, and the NIC is in no entry.  After a swap the failover IP is where it was, now with
   the NIC of the latest other machine; after a removal it is gone from the list.
   */
  lemma HandedOver(d: F.Desired, v: View, op: F.Op)
    requires F.Good(d, v.list) && OneGroup(d, v) && Sent(v, op)
    ensures var l := F.Effect(op, v.list);
      && F.Good(d, l) && F.Foreign(d, l) == F.Foreign(d, v.list)
      && (forall j | 0 <= j < |l| :: F.Nic(l[j]) != v.nic)
      && (op.Swap? ==> exists j :: 0 <= j < |l| && F.Ip(l[j]) == d[v.nic] && TakesOver(v, F.Nic(l[j])))
      && (op.Remove? ==> forall j | 0 <= j < |l| :: F.Ip(l[j]) != d[v.nic])
  {
    var l, i := F.Effect(op, v.list), F.NicIndex(v.list, v.nic);
    SentIsAllowed(d, v, op);
    F.GoodKept(d, op, v.list);
    F.ForeignKept(d, op, v.list);
    forall j: nat | j < |l| ensures F.Nic(l[j]) != v.nic { F.NicIsGone(d, op, v.list, j); }
    assert F.Ip(v.list[i]) == d[v.nic];
    if op.Swap? {
      assert F.Ip(l[i]) == d[v.nic] && F.Nic(l[i]) == op.newNic;
    } else {
      forall j: nat | j < |l| ensures F.Ip(l[j]) != d[v.nic] { F.Dropped(v.list, i, j); }
    }
  }

  /** An ordinary deletion that leaves the entry behind: the newer of two machines, listed first. */
  lemma EntryStaysBehind() returns (v: View)
    ensures Settled(v) && InGroup(v) && |v.listed| == 2 && LeavesEntry(v)
    ensures v.listed[1].name in v.primaryNics && v.primaryNics[v.listed[1].name] != ""
  {
    var machines := [LM.Machine("b", 2), LM.Machine("a", 1)];
    var list := [F.Entry(Some("10.0.0.1"), Some("nic-b"))];
    v := View(true, "b", machines, machines, "nic-b", list, map["a" := "nic-a"]);
    assert F.Nic(list[0]) == "nic-b";
    assert LM.Outshone(machines, "b");
    assert v.listed[0].name == v.self;
  }
}
