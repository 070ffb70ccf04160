/** Finding the server of a machine (getServer in internal/service/cloud/server.go). */
module ServerLookup {
  import opened Base

  /** A server without properties has no name. */
  datatype Server = Server(id: string, name: Option<string>)

  predicate Named(s: Server, name: string) { s.name == Some(name) }

  /** `i` is the first server with the ID, or without one the first with the name. */
  ghost predicate FirstById(servers: seq<Server>, id: string, i: int) {
    0 <= i < |servers| && id != "" && servers[i].id == id && forall j | 0 <= j < i :: servers[j].id != id
  }

  ghost predicate FirstByName(servers: seq<Server>, name: string, i: int) {
    0 <= i < |servers| && Named(servers[i], name) && forall j | 0 <= j < i :: !Named(servers[j], name)
  }

  predicate HasId(servers: seq<Server>, id: string) {
    id != "" && exists i | 0 <= i < |servers| :: servers[i].id == id
  }

  method FindById(servers: seq<Server>, id: string) returns (r: Option<Server>)
    ensures r.None? <==> !HasId(servers, id)
    ensures forall i :: FirstById(servers, id, i) ==> r == Some(servers[i])
    ensures r.Some? ==> r.value in servers && r.value.id == id
  {
    if id == "" { return None; }
    var i := 0;
    while i < |servers|
      invariant 0 <= i <= |servers| && forall j | 0 <= j < i :: servers[j].id != id
    {
      if servers[i].id == id { return Some(servers[i]); }
      i := i + 1;
    }
    return None;
  }

  /** The object, whose provider ID is set to that of a server found by its name. */
  class MachineObject {
    var serverID: string
    const name: string

    constructor (name: string, serverID: string)
      ensures this.name == name && this.serverID == serverID
    {
      this.name, this.serverID := name, serverID;
    }

    method GetServer(servers: seq<Server>) returns (r: Option<Server>)
      modifies this
      ensures r.None? <==> !HasId(servers, old(serverID)) && forall i | 0 <= i < |servers| :: !Named(servers[i], name)
      ensures forall i :: FirstById(servers, old(serverID), i) ==> r == Some(servers[i])
      ensures !HasId(servers, old(serverID)) ==> forall i :: FirstByName(servers, name, i) ==> r == Some(servers[i])
      ensures r.Some? ==> r.value in servers && serverID == r.value.id
      ensures r.Some? ==> if HasId(servers, old(serverID)) then serverID == old(serverID) else Named(r.value, name)
      ensures r.None? ==> serverID == old(serverID)
    {
      r := FindById(servers, serverID);
      if r.Some? { return; }
      var i := 0;
      while i < |servers|
        invariant 0 <= i <= |servers| && serverID == old(serverID)
        invariant forall j | 0 <= j < i :: !Named(servers[j], name)
      {
        if servers[i].name.Some? && servers[i].name.value == name {
          serverID := servers[i].id;
          return Some(servers[i]);
        }
        i := i + 1;
      }
    }
  }

  predicate DistinctIds(servers: seq<Server>) {
    forall i, j | 0 <= i < j < |servers| :: servers[i].id != servers[j].id
  }

  /**
   A server once found stays the machine's server for as long as it is listed, under whatever name
   and beside whatever servers of the same name.
   */
  method FoundAgain(m: MachineObject, first: seq<Server>, second: seq<Server>, k: nat)
    returns (a: Option<Server>, b: Option<Server>)
    requires k < |second| && second[k].id != "" && DistinctIds(second)
    modifies m
    ensures a.Some? && a.value.id == second[k].id ==> b == Some(second[k]) && m.serverID == a.value.id
    ensures a.None? <==> !HasId(first, old(m.serverID)) && forall i | 0 <= i < |first| :: !Named(first[i], m.name)
  {
    a := m.GetServer(first);
    if a.Some? && a.value.id == second[k].id { assert FirstById(second, m.serverID, k); }
    b := m.GetServer(second);
  }

  function ByName(name: string): Server -> bool { s => Named(s, name) }

  function CountNamed(servers: seq<Server>, name: string): nat { Count(servers, ByName(name)) }
}
