/** Properties of the appointment store that relate several operations:
    owner isolation, the (id, owner) key staying unique, counts, and what a
    lookup sees after each change. */
module StoreProperties {

  import opened Outcomes
  import opened Requests
  import opened Data

  // ------------------------------------------------------------- helpers

  /** A query distributes over concatenation. */
  lemma {:induction false} FindAppend(a: Store, b: Store, q: Query)
    ensures Find(a + b, q) == Find(a, q) + Find(b, q)
  {
    if a == [] {
      assert a + b == b;
    } else {
      assert (a + b)[1..] == a[1..] + b;
      FindAppend(a[1..], b, q);
    }
  }

  /** Splitting a store around one of its documents. */
  lemma SplitAt(s: Store, i: int)
    requires 0 <= i < |s|
    ensures s == s[..i] + [s[i]] + s[i + 1..]
  {
  }

  /** What a query finds once the document at `i` is replaced by `x`. */
  lemma ReplaceFind(s: Store, i: int, x: Appointment, q: Query)
    requires 0 <= i < |s|
    ensures Find(s[i := x], q) == Find(s[..i], q) + Find([x], q) + Find(s[i + 1..], q)
  {
    SplitAt(s[i := x], i);
    assert s[i := x][..i] == s[..i] && s[i := x][i + 1..] == s[i + 1..];
    FindAppend(s[..i] + [x], s[i + 1..], q);
    FindAppend(s[..i], [x], q);
  }

  /** A document that is not the owner's leaves the owner's list unchanged
      wherever it stands. */
  lemma FindAround(s: Store, i: int, x: Appointment, q: Query)
    requires 0 <= i < |s|
    requires Selects(q, s[i]) == Selects(q, x)
    requires Selects(q, x) ==> s[i] == x
    ensures Find(s[i := x], q) == Find(s, q)
  {
    ReplaceFind(s, i, x, q);
    DropFind(s, i, q);
  }

  /** Prepending a document whose key no other document has keeps keys unique. */
  lemma ConsUnique(x: Appointment, t: Store)
    requires UniqueKeys(t)
    requires forall a :: a in t ==> !Keyed(a, x.id, x.owner)
    ensures UniqueKeys([x] + t)
  {
    var s := [x] + t;
    forall i, j | 0 <= i < j < |s| && s[i].id == s[j].id
      ensures s[i].owner != s[j].owner
    {
      if i == 0 {
        assert s[j] == t[j - 1] && s[j] in t;
      } else {
        assert s[i] == t[i - 1] && s[j] == t[j - 1];
      }
    }
  }

  // ------------------------------------------------------ owner isolation

  /** Adding an appointment for `owner` appends it to `owner`'s list and
      leaves every other owner's list as it was. */
  lemma AddIsolation(s: Store, body: Body, owner: string, id: string, parse: DateParser, v: string)
    ensures var r := AddAppointment(s, body, owner, id, parse);
      && (r.outcome.Resolved? && v == owner ==> GetAllAppointments(r.state, v) == GetAllAppointments(s, v) + [r.outcome.value])
      && (v != owner ==> GetAllAppointments(r.state, v) == GetAllAppointments(s, v))
  {
    var r := AddAppointment(s, body, owner, id, parse);
    if r.outcome.Resolved? {
      FindAppend(s, [r.outcome.value], ByOwner(v));
    }
  }

  /** Clearing `u`'s appointments empties `u`'s list and leaves every other
      owner's list as it was. */
  lemma {:induction false} ClearIsolation(s: Store, u: string, v: string)
    ensures GetAllAppointments(AppointmentsClear(s, u).state, v) ==
            if v == u then [] else GetAllAppointments(s, v)
  {
    if s != [] {
      ClearIsolation(s[1..], u, v);
      var head := if Selects(ByOwner(u), s[0]) then [] else [s[0]];
      FindAppend(head, Delete(s[1..], ByOwner(u)), ByOwner(v));
    }
  }

  /** After a clear the owner's count is zero. */
  lemma ClearThenCountZero(s: Store, u: string)
    ensures AppointmentsCount(AppointmentsClear(s, u).state, u) == 0
  {
    ClearIsolation(s, u, u);
  }

  /** Removing `(id, u)` leaves every other owner's list as it was. */
  lemma RemoveIsolation(s: Store, id: string, u: string, v: string)
    requires v != u
    ensures GetAllAppointments(RemoveAppointment(s, id, u).state, v) == GetAllAppointments(s, v)
  {
    var k := FirstKeyed(s, id, u);
    if k.Some? {
      var i := k.value;
      assert RemoveAppointment(s, id, u).state == s[..i] + s[i + 1..];
      DropFind(s, i, ByOwner(v));
      assert Find([s[i]], ByOwner(v)) == [];
    }
  }

  /** A successful removal takes exactly one appointment off the owner's count. */
  lemma RemoveLowersCount(s: Store, id: string, u: string)
    ensures var r := RemoveAppointment(s, id, u);
      r.outcome.Resolved? ==> AppointmentsCount(r.state, u) == AppointmentsCount(s, u) - 1
  {
    var k := FirstKeyed(s, id, u);
    if k.Some? {
      var i := k.value;
      assert RemoveAppointment(s, id, u).state == s[..i] + s[i + 1..];
      DropFind(s, i, ByOwner(u));
      assert Find([s[i]], ByOwner(u)) == [s[i]];
    }
  }

  /** What a query finds once the document at `i` is taken out. */
  lemma DropFind(s: Store, i: int, q: Query)
    requires 0 <= i < |s|
    ensures Find(s[..i] + s[i + 1..], q) == Find(s[..i], q) + Find(s[i + 1..], q)
    ensures Find(s, q) == Find(s[..i], q) + Find([s[i]], q) + Find(s[i + 1..], q)
  {
    SplitAt(s, i);
    FindAppend(s[..i] + [s[i]], s[i + 1..], q);
    FindAppend(s[..i], [s[i]], q);
    FindAppend(s[..i], s[i + 1..], q);
  }

  /** Replacing one document by another that a query selects just as well
      leaves the number of documents the query finds unchanged. */
  lemma ReplaceKeepsCount(s: Store, i: int, x: Appointment, q: Query)
    requires 0 <= i < |s|
    requires Selects(q, s[i]) == Selects(q, x)
    ensures |Find(s[i := x], q)| == |Find(s, q)|
  {
    ReplaceFind(s, i, x, q);
    DropFind(s, i, q);
  }

  /** Updating `(id, u)` leaves every other owner's list as it was and does
      not change how many appointments `u` has. */
  lemma UpdateIsolation(s: Store, id: string, body: Body, u: string, parse: DateParser, v: string)
    ensures var r := UpdateAppointment(s, id, body, u, parse);
      && (v != u ==> GetAllAppointments(r.state, v) == GetAllAppointments(s, v))
      && AppointmentsCount(r.state, u) == AppointmentsCount(s, u)
  {
    var r := UpdateAppointment(s, id, body, u, parse);
    if r.outcome.Resolved? {
      var x := NewAppointment(body, u, id, parse(body.date.s).value);
      var i := FirstKeyed(s, id, u).value;
      assert r.state == s[i := x];
      if v != u {
        FindAround(s, i, x, ByOwner(v));
      }
      ReplaceKeepsCount(s, i, x, ByOwner(u));
    }
  }

  // ------------------------------------------------------- unique keys

  /** Adding under a fresh `(id, owner)` key keeps keys unique. */
  lemma AddKeepsKeysUnique(s: Store, body: Body, owner: string, id: string, parse: DateParser)
    requires UniqueKeys(s)
    requires forall a :: a in s ==> !Keyed(a, id, owner)
    ensures UniqueKeys(AddAppointment(s, body, owner, id, parse).state)
  {
    var r := AddAppointment(s, body, owner, id, parse);
    if r.outcome.Resolved? {
      var t := r.state;
      forall i, j | 0 <= i < j < |t| && t[i].id == t[j].id
        ensures t[i].owner != t[j].owner
      {
        if j == |s| {
          assert t[i] == s[i] && t[i] in s;
        } else {
          assert t[i] == s[i] && t[j] == s[j];
        }
      }
    }
  }

  /** Removing a document keeps keys unique. */
  lemma RemoveKeepsKeysUnique(s: Store, id: string, u: string)
    requires UniqueKeys(s)
    ensures UniqueKeys(RemoveAppointment(s, id, u).state)
  {
  }

  /** Updating keeps keys unique: the rewritten document keeps its key. */
  lemma UpdateKeepsKeysUnique(s: Store, id: string, body: Body, u: string, parse: DateParser)
    requires UniqueKeys(s)
    ensures UniqueKeys(UpdateAppointment(s, id, body, u, parse).state)
  {
  }

  /** Clearing an owner keeps keys unique. */
  lemma {:induction false} ClearKeepsKeysUnique(s: Store, u: string)
    requires UniqueKeys(s)
    ensures UniqueKeys(AppointmentsClear(s, u).state)
  {
    if s != [] {
      assert UniqueKeys(s[1..]) by {
        forall i, j | 0 <= i < j < |s[1..]| && s[1..][i].id == s[1..][j].id
          ensures s[1..][i].owner != s[1..][j].owner
        {
          assert s[1..][i] == s[i + 1] && s[1..][j] == s[j + 1];
        }
      }
      ClearKeepsKeysUnique(s[1..], u);
      var rest := Delete(s[1..], ByOwner(u));
      if !Selects(ByOwner(u), s[0]) {
        forall a | a in rest ensures !Keyed(a, s[0].id, s[0].owner) {
          var j :| 0 <= j < |s[1..]| && s[1..][j] == a;
          assert s[j + 1] == a;
        }
        ConsUnique(s[0], rest);
      } else {
        assert Delete(s, ByOwner(u)) == [] + rest;
      }
    }
  }

  // --------------------------------------------------- lookups after change

  /** A freshly added appointment is what a lookup by its id returns. */
  lemma AddThenGetById(s: Store, body: Body, owner: string, id: string, parse: DateParser)
    requires forall a :: a in s ==> !Keyed(a, id, owner)
    ensures var r := AddAppointment(s, body, owner, id, parse);
      r.outcome.Resolved? ==> GetAppointmentById(r.state, id, owner) == r.outcome
  {
    var r := AddAppointment(s, body, owner, id, parse);
    if r.outcome.Resolved? {
      var a := r.outcome.value;
      assert r.state[|s|] == a && a in r.state;
    }
  }

  /** A freshly added appointment is among those its own date string finds. */
  lemma AddThenOnItsDay(s: Store, body: Body, owner: string, id: string, parse: DateParser)
    ensures var r := AddAppointment(s, body, owner, id, parse);
      r.outcome.Resolved? ==>
        var d := GetAppointmentsByDate(r.state, body.date, owner, parse);
        d.Resolved? && r.outcome.value in d.value
  {
  }

  /** In a store with unique keys, a removed appointment can no longer be
      found, whether or not the removal found it. */
  lemma RemoveThenGone(s: Store, id: string, u: string)
    requires UniqueKeys(s)
    ensures GetAppointmentById(RemoveAppointment(s, id, u).state, id, u) == Rejected(Refused(NoAppointment))
  {
  }

  /** After a successful update a lookup by the same key returns the rewritten
      appointment: the body's fields under the original id and owner. */
  lemma UpdateThenGet(s: Store, id: string, body: Body, u: string, parse: DateParser)
    ensures var r := UpdateAppointment(s, id, body, u, parse);
      r.outcome.Resolved? ==>
        GetAppointmentById(r.state, id, u) == Resolved(NewAppointment(body, u, id, parse(body.date.s).value))
  {
    var r := UpdateAppointment(s, id, body, u, parse);
    if r.outcome.Resolved? {
      var x := NewAppointment(body, u, id, parse(body.date.s).value);
      var i := FirstKeyed(s, id, u).value;
      assert r.state == s[i := x];
      assert r.state[i] == x && r.state[i] in r.state;
    }
  }
}
