/** The pollfd arrays of a cerver and the counters beside them: the main one
    (src/cerver/handler.c:2635-2808), the on hold one (src/cerver/auth.c:1143-1289) and the admin one
    (src/cerver/admin.c:1968-2121). An unused entry holds -1. */
module PollTables {
  const FREE: int := -1

  /** `nfds` is current_n_fds or current_on_hold_nfds, `connections` the counter in the stats. */
  datatype Table = Table(slots: seq<int>, nfds: int, connections: int)

  /** The index of the first entry that holds x, |slots| when there is none. */
  function First(slots: seq<int>, x: int): (i: nat)
    ensures i <= |slots|
    ensures i < |slots| ==> slots[i] == x
    ensures forall j :: 0 <= j < i ==> slots[j] != x
  {
    if slots == [] then 0
    else if slots[0] == x then 0
    else 1 + First(slots[1..], x)
  }

  /** The result of a successful register; `low` is 1 for the main table, which does not give out
      entry 0, and 0 for the others. A full table is left as it is. */
  function Add(t: Table, low: nat, fd: int): Table {
    var i := First(t.slots, FREE);
    if low <= i < |t.slots| then Table(t.slots[i := fd], t.nfds + 1, t.connections + 1) else t
  }

  function Remove(t: Table, low: nat, fd: int): Table {
    var i := First(t.slots, fd);
    if low <= i < |t.slots| then Table(t.slots[i := FREE], t.nfds - 1, t.connections - 1) else t
  }

  function RemoveAll(t: Table, low: nat, fds: seq<int>): Table
    decreases |fds|
  {
    if fds == [] then t else RemoveAll(Remove(t, low, fds[0]), low, fds[1..])
  }

  /** The entries after `head` hold exactly the descriptors `fds`, each once, and both counters are
      right. */
  ghost predicate Lists(t: Table, head: seq<int>, fds: set<int>) {
    && |head| <= |t.slots| && t.slots[..|head|] == head
    && FREE !in head && FREE !in fds
    && (forall i :: |head| <= i < |t.slots| ==> t.slots[i] == FREE || t.slots[i] in fds)
    && (forall fd :: fd in fds ==> fd !in head && fd in t.slots)
    && (forall i, j :: 0 <= i < j < |t.slots| && t.slots[i] != FREE ==> t.slots[i] != t.slots[j])
    && t.nfds == |fds| + |head|
    && t.connections == |fds|
  }

  /** What is not in the head is found after it. */
  lemma HeadFirst(t: Table, head: seq<int>, x: int)
    requires |head| <= |t.slots| && t.slots[..|head|] == head && x !in head
    ensures First(t.slots, x) >= |head|
    ensures forall i :: 0 <= i < |t.slots| && t.slots[i] == x ==> i >= |head|
  {
    forall i | 0 <= i < |head| ensures t.slots[i] != x {
      assert head[i] == t.slots[i];
    }
  }

  /** A free entry after the head takes a new descriptor. */
  lemma PutLists(t: Table, head: seq<int>, fds: set<int>, fd: int, i: nat)
    requires Lists(t, head, fds) && |head| <= i < |t.slots| && t.slots[i] == FREE
    requires fd != FREE && fd !in fds && fd !in head && fd !in t.slots
    ensures Lists(Table(t.slots[i := fd], t.nfds + 1, t.connections + 1), head, fds + {fd})
  {
    var slots := t.slots[i := fd];
    assert slots[..|head|] == head;
    forall x | x in fds + {fd} ensures x !in head && x in slots {
      if x == fd {
        assert slots[i] == fd;
      } else {
        var k :| 0 <= k < |t.slots| && t.slots[k] == x;
        assert slots[k] == x;
      }
    }
    forall j, k | 0 <= j < k < |slots| && slots[j] != FREE ensures slots[j] != slots[k] {
      assert t.slots[j] != FREE && t.slots[k] != FREE ==> t.slots[j] != t.slots[k];
      assert t.slots[j] in t.slots && t.slots[k] in t.slots;
    }
  }

  lemma AddLists(t: Table, head: seq<int>, fds: set<int>, fd: int)
    requires Lists(t, head, fds)
    requires fd != FREE && fd !in fds && fd !in head
    ensures FREE in t.slots ==> Lists(Add(t, |head|, fd), head, fds + {fd})
    ensures FREE !in t.slots ==> Add(t, |head|, fd) == t
  {
    var i := First(t.slots, FREE);
    if i < |t.slots| {
      HeadFirst(t, head, FREE);
      HeadFirst(t, head, fd);
      PutLists(t, head, fds, fd, i);
    }
  }

  lemma RemoveLists(t: Table, head: seq<int>, fds: set<int>, fd: int)
    requires Lists(t, head, fds)
    requires fd != FREE && fd !in head
    ensures Lists(Remove(t, |head|, fd), head, fds - {fd})
    ensures fd !in fds ==> Remove(t, |head|, fd) == t
    ensures |Remove(t, |head|, fd).slots| == |t.slots|
    ensures FREE in t.slots || fd in fds ==> FREE in Remove(t, |head|, fd).slots
  {
    var i := First(t.slots, fd);
    var u := Remove(t, |head|, fd);
    if fd in fds {
      assert fd in t.slots;
      HeadFirst(t, head, fd);
      assert u.slots[..|head|] == head;
      assert u.slots[i] == FREE;
      forall x | x in fds - {fd} ensures x in u.slots {
        var k :| 0 <= k < |t.slots| && t.slots[k] == x;
        assert u.slots[k] == x;
      }
    } else {
      assert fds - {fd} == fds;
      HeadFirst(t, head, fd);
    }
  }

  lemma {:induction false} RemoveAllLists(t: Table, head: seq<int>, fds: set<int>, gone: seq<int>)
    requires Lists(t, head, fds)
    requires forall x :: x in gone ==> x != FREE && x !in head
    ensures Lists(RemoveAll(t, |head|, gone), head, fds - set x | x in gone)
    decreases |gone|
  {
    hide Lists, Remove;
    if gone == [] {
      assert fds - (set x | x in gone) == fds;
    } else {
      assert gone[0] in gone && forall x :: x in gone[1..] ==> x in gone;
      RemoveLists(t, head, fds, gone[0]);
      RemoveAllLists(Remove(t, |head|, gone[0]), head, fds - {gone[0]}, gone[1..]);
      assert gone == [gone[0]] + gone[1..];
      assert fds - {gone[0]} - (set x | x in gone[1..]) == fds - set x | x in gone;
    }
  }

  /** One of the arrays. */
  class PollTable {
    const low: nat
    const fds: array<int>
    var nfds: int
    var connections: int

    ghost function View(): Table
      reads this, fds
    {
      Table(fds[..], nfds, connections)
    }

    /** All entries are free but the listening socket, if there is one. */
    constructor (head: seq<int>, size: nat)
      requires |head| <= 1 && |head| <= size && FREE !in head
      ensures fresh(fds) && low == |head|
      ensures Lists(View(), head, {}) && fds.Length == size
    {
      low := |head|;
      fds := new int[size](i requires 0 <= i < size => if i < |head| then head[i] else FREE);
      nfds := |head|;
      connections := 0;
      new;
      assert fds[..][..|head|] == head;
      assert forall i :: |head| <= i < size ==> fds[..][i] == FREE;
    }

    /** cerver_poll_get_free_idx (), and cerver_poll_get_idx_by_sock_fd (): -1 when there is none. */
    method Find(x: int) returns (idx: int)
      ensures idx == -1 <==> x !in fds[..]
      ensures idx != -1 ==> idx == First(fds[..], x)
    {
      var i := 0;
      while i < fds.Length
        invariant 0 <= i <= fds.Length
        invariant forall j :: 0 <= j < i ==> fds[j] != x
      {
        if fds[i] == x {
          return i;
        }
        i := i + 1;
      }
      return -1;
    }

    /** The register functions; 0 on success. */
    method Register(fd: int) returns (retval: int)
      modifies this`nfds, this`connections, fds
      ensures View() == Add(old(View()), low, fd)
      ensures retval == 0 <==> low <= First(old(fds[..]), FREE) < fds.Length
      ensures retval == 0 || retval == 1
    {
      var idx := Find(FREE);
      if idx >= low {
        fds[idx] := fd;
        nfds := nfds + 1;
        connections := connections + 1;
        return 0;
      }
      return 1;
    }

    /** The unregister functions; 0 on success. */
    method Unregister(fd: int) returns (retval: int)
      modifies this`nfds, this`connections, fds
      ensures View() == Remove(old(View()), low, fd)
      ensures retval == 0 <==> low <= First(old(fds[..]), fd) < fds.Length
      ensures retval == 0 || retval == 1
    {
      var idx := Find(fd);
      if idx >= low {
        fds[idx] := FREE;
        nfds := nfds - 1;
        connections := connections - 1;
        return 0;
      }
      return 1;
    }

    /** The loops that unregister every connection of a list. */
    method UnregisterAll(gone: seq<int>)
      modifies this`nfds, this`connections, fds
      ensures View() == RemoveAll(old(View()), low, gone)
    {
      hide Remove;
      for i := 0 to |gone|
        invariant RemoveAll(View(), low, gone[i..]) == RemoveAll(old(View()), low, gone)
      {
        assert gone[i..] == [gone[i]] + gone[i + 1..];
        var _ := Unregister(gone[i]);
      }
    }
  }
}
