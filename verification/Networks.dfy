/** The simulated network's tables and the persisters, updated in place under their locks, and what
    the tester does to them when it shuts a server down or starts one. */
module Networks {
  import opened Histories

  // ---------------------------------------------------------------- persisters

  type Bytes = seq<bv8>

  datatype Saved = Saved(raftstate: Bytes, snapshot: Bytes)

  const EMPTY := Saved([], [])

  class Persister {
    var raftstate: Bytes
    var snapshot: Bytes

    function Contents(): Saved
      reads this
    {
      Saved(raftstate, snapshot)
    }

    constructor ()
      ensures Contents() == EMPTY
    {
      raftstate, snapshot := [], [];
    }

    /** A second persister with the same contents; what happens to one no longer shows in the other. */
    method Copy() returns (np: Persister)
      ensures fresh(np) && np.Contents() == Contents()
    {
      np := new Persister();
      np.raftstate := raftstate;
      np.snapshot := snapshot;
    }

    method Save(raftstate: Bytes, snapshot: Bytes)
      modifies this
      ensures Contents() == Saved(raftstate, snapshot)
    {
      this.raftstate := raftstate;
      this.snapshot := snapshot;
    }

    method ReadRaftState() returns (r: Bytes)
      ensures r == Contents().raftstate
    {
      r := raftstate;
    }

    method ReadSnapshot() returns (r: Bytes)
      ensures r == Contents().snapshot
    {
      r := snapshot;
    }
  }

  // ---------------------------------------------------------------- the network

  type EndName = string
  type ServerName = int

  /** A server instance; a new one is made at every restart. */
  type ServerId = nat

  /** The tables: which ends are enabled, what they are connected to, which instance serves a name;
      and the two settings that make the network drop or delay messages. */
  datatype Tables = Tables(enabled: map<EndName, bool>, connections: map<EndName, ServerName>,
                           servers: map<ServerName, ServerId>, reliable: bool, longReordering: bool)

  predicate IsEnabled(t: Tables, endname: EndName) {
    endname in t.enabled && t.enabled[endname]
  }

  /** The instance a request through this end goes to. */
  function Target(t: Tables, endname: EndName): Option<(ServerName, ServerId)> {
    if IsEnabled(t, endname) && endname in t.connections && t.connections[endname] in t.servers
    then Some((t.connections[endname], t.servers[t.connections[endname]])) else None
  }

  /** Whether that instance still serves that name, and the end may still talk to it. */
  predicate ServerAlive(t: Tables, endname: EndName, servername: ServerName, server: ServerId) {
    IsEnabled(t, endname) && servername in t.servers && t.servers[servername] == server
  }

  function WithServer(t: Tables, servername: ServerName, server: ServerId): Tables {
    t.(servers := t.servers[servername := server])
  }

  function WithoutServer(t: Tables, servername: ServerName): Tables {
    t.(servers := t.servers - {servername})
  }

  class Network {
    var enabled: map<EndName, bool>
    var connections: map<EndName, ServerName>
    var servers: map<ServerName, ServerId>
    var reliable: bool
    var longReordering: bool

    function Contents(): Tables
      reads this
    {
      Tables(enabled, connections, servers, reliable, longReordering)
    }

    constructor ()
      ensures Contents() == Tables(map[], map[], map[], true, false)
    {
      enabled, connections, servers := map[], map[], map[];
      reliable, longReordering := true, false;
    }

    /** An end that was never connected has no server name, and a name nobody serves has no server. */
    method ReadEndnameInfo(endname: EndName)
        returns (isEnabled: bool, servername: Option<ServerName>, server: Option<ServerId>, isReliable: bool,
                 reorders: bool)
      ensures isEnabled <==> endname in enabled && enabled[endname]
      ensures servername == if endname in connections then Some(connections[endname]) else None
      ensures server == if servername.Some? && servername.value in servers then Some(servers[servername.value])
                        else None
      ensures isReliable == reliable && reorders == longReordering
      ensures isEnabled && servername.Some? && server.Some? <==> Target(Contents(), endname).Some?
      ensures Target(Contents(), endname).Some? ==>
              Target(Contents(), endname).value == (servername.value, server.value)
    {
      isEnabled := endname in enabled && enabled[endname];
      servername := if endname in connections then Some(connections[endname]) else None;
      server := None;
      if servername.Some? && servername.value in servers {
        server := Some(servers[servername.value]);
      }
      isReliable, reorders := reliable, longReordering;
    }

    method IsServerDead(endname: EndName, servername: ServerName, server: ServerId) returns (dead: bool)
      ensures dead <==>
              || endname !in enabled || !enabled[endname]
              || servername !in servers || servers[servername] != server
      ensures dead <==> !ServerAlive(Contents(), endname, servername, server)
    {
      if !(endname in enabled && enabled[endname]) || !(servername in servers && servers[servername] == server) {
        return true;
      }
      return false;
    }

    method AddServer(servername: ServerName, server: ServerId)
      modifies this
      ensures Contents() == WithServer(old(Contents()), servername, server)
      ensures servers == old(servers)[servername := server]
      ensures enabled == old(enabled) && connections == old(connections)
    {
      servers := servers[servername := server];
    }

    method DeleteServer(servername: ServerName)
      modifies this
      ensures Contents() == WithoutServer(old(Contents()), servername)
      ensures servername !in servers && enabled == old(enabled) && connections == old(connections)
      ensures forall other :: other != servername ==>
                && (other in servers <==> other in old(servers))
                && (other in servers ==> servers[other] == old(servers)[other])
      ensures forall endname, server :: !ServerAlive(Contents(), endname, servername, server)
    {
      servers := servers - {servername};
    }

    method Enable(endname: EndName, on: bool)
      modifies this
      ensures Contents() == old(Contents()).(enabled := old(enabled)[endname := on])
    {
      enabled := enabled[endname := on];
    }

    method Connect(endname: EndName, servername: ServerName)
      modifies this
      ensures Contents() == old(Contents()).(connections := old(connections)[endname := servername])
    {
      connections := connections[endname := servername];
    }
  }

  // ---------------------------------------------------------------- the tester

  /** All persisters ever made, in the order they were made, and which of them is saved for a server. */
  datatype Shelf = Shelf(disks: seq<Saved>, saved: map<ServerName, nat>)

  /** What is saved for a server is replaced by a copy, or by an empty persister the first time. */
  function CopySaved(shelf: Shelf, i: ServerName): Shelf {
    var contents := if i in shelf.saved && shelf.saved[i] < |shelf.disks| then shelf.disks[shelf.saved[i]] else EMPTY;
    Shelf(shelf.disks + [contents], shelf.saved[i := |shelf.disks|])
  }

  function SaveOn(shelf: Shelf, p: nat, contents: Saved): Shelf
    requires p < |shelf.disks|
  {
    shelf.(disks := shelf.disks[p := contents])
  }

  function ContentsOf(disks: seq<Persister>): (r: seq<Saved>)
    reads disks
    ensures |r| == |disks|
    ensures forall k :: 0 <= k < |disks| ==> r[k] == disks[k].Contents()
  {
    if disks == [] then [] else ContentsOf(disks[..|disks| - 1]) + [disks[|disks| - 1].Contents()]
  }

  class Config {
    const net: Network
    var saved: map<ServerName, Persister>
    ghost var disks: seq<Persister>
    ghost var number: map<ServerName, nat>

    ghost predicate Valid()
      reads this
    {
      && Distinct(disks)
      && saved.Keys == number.Keys
      && forall i :: i in saved ==> number[i] < |disks| && disks[number[i]] == saved[i]
    }

    ghost function Contents(): Shelf
      reads this, disks
    {
      Shelf(ContentsOf(disks), number)
    }

    constructor (net: Network)
      ensures Valid() && this.net == net && Contents() == Shelf([], map[])
    {
      this.net := net;
      saved := map[];
      disks, number := [], map[];
    }

    /** A persister for a server: a copy of what is saved, or a new one. */
    method Supersede(i: ServerName)
      requires Valid()
      modifies this
      ensures Valid() && old(disks) <= disks
      ensures saved.Keys == old(saved.Keys) + {i} && forall j :: j in old(saved) && j != i ==> saved[j] == old(saved)[j]
      ensures fresh(saved[i])
      ensures saved[i].Contents() == if i in old(saved) then old(saved[i].Contents()) else EMPTY
      ensures Contents() == CopySaved(old(Contents()), i)
    {
      var p;
      if i in saved {
        p := saved[i].Copy();
      } else {
        p := new Persister();
      }
      saved := saved[i := p];
      number := number[i := |disks|];
      disks := disks + [p];
      assert disks[..|disks| - 1] == old(disks);
    }

    /** Deletes the server first, and only then replaces what is saved for it. */
    method ShutdownServer(i: ServerName)
      requires Valid()
      modifies this, net
      ensures Valid() && old(disks) <= disks
      ensures i !in net.servers && net.Contents() == WithoutServer(old(net.Contents()), i)
      ensures Contents() == if i in old(saved) then CopySaved(old(Contents()), i) else old(Contents())
    {
      net.DeleteServer(i);
      if i in saved {
        Supersede(i);
      }
    }

    /** An instance saves to the persister it was given; no other persister changes, copies included. */
    method SaveThrough(p: Persister, ghost k: nat, raftstate: Bytes, snapshot: Bytes)
      requires Valid() && k < |disks| && disks[k] == p
      modifies p
      ensures Valid() && Contents() == SaveOn(old(Contents()), k, Saved(raftstate, snapshot))
    {
      p.Save(raftstate, snapshot);
      assert ContentsOf(disks) == old(ContentsOf(disks))[k := Saved(raftstate, snapshot)];
    }
  }
}
