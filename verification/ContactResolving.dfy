/** Finding or creating the contact behind a person's identifiers (apps/api/src/identity/contact-resolver.service.ts). */
module ContactResolving {
  import opened Common
  import opened Identity

  /** The unique key of an identifier row. */
  datatype IdKey = IdKey(tenant: TenantId, id: Identifier)

  datatype ContactRow = ContactRow(tenant: TenantId, name: Option<string>)

  /** What identifies a person in a lead or contact record. */
  datatype Payload = Payload(name: Option<string>, phones: seq<string>, emails: seq<string>)

  /** Contacts are numbered in creation order; owner is the identifier table. */
  datatype Book = Book(contacts: seq<ContactRow>, owner: map<IdKey, ContactId>)

  function FirstFound(owner: map<IdKey, ContactId>, t: TenantId, ids: seq<Identifier>): Option<ContactId> {
    if |ids| == 0 then None
    else if IdKey(t, ids[0]) in owner then Some(owner[IdKey(t, ids[0])])
    else FirstFound(owner, t, ids[1..])
  }

  /** Upserts with an empty update: a bound identifier keeps its contact. */
  function AttachAll(owner: map<IdKey, ContactId>, t: TenantId, c: ContactId, ids: seq<Identifier>): map<IdKey, ContactId> {
    if |ids| == 0 then owner
    else
      var before := AttachAll(owner, t, c, Front(ids));
      var key := IdKey(t, Last(ids));
      if key in before then before else before[key := c]
  }

  function Resolve(b: Book, t: TenantId, p: Payload): (Book, Option<ContactId>) {
    var ids := Identifiers(p.phones, p.emails);
    if |ids| == 0 then (b, None)
    else
      match FirstFound(b.owner, t, ids)
      case Some(c) => (b.(owner := AttachAll(b.owner, t, c, ids)), Some(c))
      case None =>
        var c := |b.contacts|;
        (Book(b.contacts + [ContactRow(t, p.name)], AttachAll(b.owner, t, c, ids)), Some(c))
  }

  // ---- Bindings are written once ----

  lemma {:induction false} AttachExact(owner: map<IdKey, ContactId>, t: TenantId, c: ContactId, ids: seq<Identifier>)
    ensures var r := AttachAll(owner, t, c, ids);
            && (forall k :: k in r <==> k in owner || (k.tenant == t && k.id in ids))
            && (forall k :: k in r ==> r[k] == if k in owner then owner[k] else c)
  {
    if |ids| > 0 {
      AttachExact(owner, t, c, Front(ids));
      assert ids == Front(ids) + [Last(ids)];
    }
  }

  lemma {:induction false} FoundIsFirst(owner: map<IdKey, ContactId>, t: TenantId, ids: seq<Identifier>)
    ensures FirstFound(owner, t, ids).None? <==> forall id :: id in ids ==> IdKey(t, id) !in owner
    ensures |ids| > 0 && IdKey(t, ids[0]) in owner ==> FirstFound(owner, t, ids) == Some(owner[IdKey(t, ids[0])])
    ensures FirstFound(owner, t, ids).Some? ==> exists k :: k in owner && owner[k] == FirstFound(owner, t, ids).value
  {
    if |ids| > 0 {
      FoundIsFirst(owner, t, ids[1..]);
      assert ids == [ids[0]] + ids[1..];
    }
  }

  ghost predicate IsFirstBound(owner: map<IdKey, ContactId>, t: TenantId, ids: seq<Identifier>, i: int) {
    0 <= i < |ids| && IdKey(t, ids[i]) in owner && forall j :: 0 <= j < i ==> IdKey(t, ids[j]) !in owner
  }

  lemma {:induction false} FoundAt(owner: map<IdKey, ContactId>, t: TenantId, ids: seq<Identifier>)
    ensures forall i :: IsFirstBound(owner, t, ids, i) ==> FirstFound(owner, t, ids) == Some(owner[IdKey(t, ids[i])])
    ensures FirstFound(owner, t, ids).Some? ==> exists i :: IsFirstBound(owner, t, ids, i)
  {
    if |ids| > 0 && IdKey(t, ids[0]) !in owner {
      FoundAt(owner, t, ids[1..]);
      assert forall i :: 0 <= i < |ids| - 1 ==> ids[1..][i] == ids[i + 1];
      forall i | IsFirstBound(owner, t, ids, i)
        ensures FirstFound(owner, t, ids) == Some(owner[IdKey(t, ids[i])])
      {
        assert IsFirstBound(owner, t, ids[1..], i - 1);
      }
      if i :| IsFirstBound(owner, t, ids[1..], i) {
        assert IsFirstBound(owner, t, ids, i + 1);
      }
    } else if |ids| > 0 {
      assert IsFirstBound(owner, t, ids, 0);
    }
  }

  /**
   * A payload without identifiers has no contact. Else the contact is the owner of the first identifier that is bound,
   * or a new one with the payload's name if none is; afterwards every identifier of the payload is bound, a new
   * binding to that contact, and no other binding changed.
   */
  lemma {:induction false} ResolveExact(b: Book, t: TenantId, p: Payload)
    ensures var ids := Identifiers(p.phones, p.emails);
            var (b1, c) := Resolve(b, t, p);
            && (ids == [] ==> b1 == b && c.None?)
            && (ids != [] ==>
                  && c.Some?
                  && (forall i :: IsFirstBound(b.owner, t, ids, i) ==> c.value == b.owner[IdKey(t, ids[i])] && b1.contacts == b.contacts)
                  && ((forall id :: id in ids ==> IdKey(t, id) !in b.owner) ==>
                        c.value == |b.contacts| && b1.contacts == b.contacts + [ContactRow(t, p.name)])
                  && (forall k :: k in b1.owner <==> k in b.owner || (k.tenant == t && k.id in ids))
                  && (forall k :: k in b1.owner ==> b1.owner[k] == if k in b.owner then b.owner[k] else c.value))
  {
    var ids := Identifiers(p.phones, p.emails);
    if ids != [] {
      FoundAt(b.owner, t, ids);
      FoundIsFirst(b.owner, t, ids);
      AttachExact(b.owner, t, Resolve(b, t, p).1.value, ids);
    }
  }

  /** Later books only add: contacts keep their rows and every binding stays as first written. */
  ghost predicate Extends(b: Book, later: Book) {
    && |b.contacts| <= |later.contacts| && later.contacts[..|b.contacts|] == b.contacts
    && forall k :: k in b.owner ==> k in later.owner && later.owner[k] == b.owner[k]
  }

  lemma {:induction false} ResolveExtends(b: Book, t: TenantId, p: Payload)
    ensures Extends(b, Resolve(b, t, p).0)
  {
    var ids := Identifiers(p.phones, p.emails);
    if |ids| > 0 {
      AttachExact(b.owner, t, (match FirstFound(b.owner, t, ids) case Some(c) => c case None => |b.contacts|), ids);
    }
  }

  /** Every identifier of p is bound in b, the first one to c: resolving p again can only answer c. */
  ghost predicate Known(b: Book, t: TenantId, p: Payload, c: Option<ContactId>) {
    var ids := Identifiers(p.phones, p.emails);
    if |ids| == 0 then c.None?
    else (forall id :: id in ids ==> IdKey(t, id) in b.owner) && c == Some(b.owner[IdKey(t, ids[0])])
  }

  lemma {:induction false} ResolveMakesKnown(b: Book, t: TenantId, p: Payload)
    ensures Known(Resolve(b, t, p).0, t, p, Resolve(b, t, p).1)
  {
    var ids := Identifiers(p.phones, p.emails);
    if |ids| > 0 {
      FoundIsFirst(b.owner, t, ids);
      AttachExact(b.owner, t, (match FirstFound(b.owner, t, ids) case Some(c) => c case None => |b.contacts|), ids);
    }
  }

  lemma {:induction false} KnownStays(b: Book, later: Book, t: TenantId, p: Payload, c: Option<ContactId>)
    requires Known(b, t, p, c) && Extends(b, later)
    ensures Known(later, t, p, c)
  {
    var ids := Identifiers(p.phones, p.emails);
    if |ids| > 0 { assert ids[0] in ids; }
  }

  /** Resolving a known payload gives its contact and leaves the book exactly as it was. */
  lemma {:induction false} KnownIsStable(b: Book, t: TenantId, p: Payload, c: Option<ContactId>)
    requires Known(b, t, p, c)
    ensures Resolve(b, t, p) == (b, c)
  {
    var ids := Identifiers(p.phones, p.emails);
    if |ids| > 0 {
      assert ids[0] in ids;
      FoundIsFirst(b.owner, t, ids);
      AttachExact(b.owner, t, c.value, ids);
      assert AttachAll(b.owner, t, c.value, ids) == b.owner;
    }
  }

  // ---- Whole runs ----

  datatype Call = Call(tenant: TenantId, payload: Payload)

  function ResolveRun(b: Book, calls: seq<Call>): Book {
    if |calls| == 0 then b
    else Resolve(ResolveRun(b, Front(calls)), Last(calls).tenant, Last(calls).payload).0
  }

  lemma {:induction false} RunExtends(b: Book, calls: seq<Call>)
    ensures Extends(b, ResolveRun(b, calls))
  {
    if |calls| > 0 {
      var m := ResolveRun(b, Front(calls));
      RunExtends(b, Front(calls));
      ResolveExtends(m, Last(calls).tenant, Last(calls).payload);
      var e := ResolveRun(b, calls);
      assert e.contacts[..|b.contacts|] == e.contacts[..|m.contacts|][..|b.contacts|];
    }
  }

  /** Once a payload has been resolved, every later resolve of it gives the same answer and changes nothing. */
  lemma {:induction false} ResolvedForGood(b: Book, t: TenantId, p: Payload, calls: seq<Call>)
    ensures var (b1, c) := Resolve(b, t, p);
            var later := ResolveRun(b1, calls);
            Resolve(later, t, p) == (later, c)
  {
    var (b1, c) := Resolve(b, t, p);
    ResolveMakesKnown(b, t, p);
    RunExtends(b1, calls);
    KnownStays(b1, ResolveRun(b1, calls), t, p, c);
    KnownIsStable(ResolveRun(b1, calls), t, p, c);
  }

  /** Bindings point at existing contacts of their own tenant, and every contact owns an identifier. */
  ghost predicate Sound(b: Book) {
    && (forall k :: k in b.owner ==> b.owner[k] < |b.contacts| && b.contacts[b.owner[k]].tenant == k.tenant)
    && forall c :: 0 <= c < |b.contacts| ==> Owns(b, c)
  }

  ghost predicate Owns(b: Book, c: ContactId) {
    exists k :: k in b.owner && b.owner[k] == c
  }

  lemma {:induction false} ResolveKeepsSound(b: Book, t: TenantId, p: Payload)
    requires Sound(b)
    ensures Sound(Resolve(b, t, p).0)
    ensures var c := Resolve(b, t, p).1;
            c.Some? ==> c.value < |Resolve(b, t, p).0.contacts| && Resolve(b, t, p).0.contacts[c.value].tenant == t
  {
    var ids := Identifiers(p.phones, p.emails);
    var b1 := Resolve(b, t, p).0;
    if |ids| > 0 {
      var c := match FirstFound(b.owner, t, ids) case Some(c) => c case None => |b.contacts|;
      if FirstFound(b.owner, t, ids).Some? { FoundOfTenant(b.owner, t, ids); }
      AttachExact(b.owner, t, c, ids);
      FoundIsFirst(b.owner, t, ids);
      assert ids[0] in ids;
      forall d | 0 <= d < |b1.contacts|
        ensures Owns(b1, d)
      {
        if d < |b.contacts| {
          assert Owns(b, d);
          var k :| k in b.owner && b.owner[k] == d;
          assert b1.owner[k] == d;
        } else {
          assert b1.owner[IdKey(t, ids[0])] == d;
        }
      }
    }
  }

  lemma {:induction false} FoundOfTenant(owner: map<IdKey, ContactId>, t: TenantId, ids: seq<Identifier>)
    requires FirstFound(owner, t, ids).Some?
    ensures exists id :: IdKey(t, id) in owner && owner[IdKey(t, id)] == FirstFound(owner, t, ids).value
  {
    if IdKey(t, ids[0]) !in owner {
      FoundOfTenant(owner, t, ids[1..]);
    }
  }

  lemma {:induction false} RunKeepsSound(b: Book, calls: seq<Call>)
    requires Sound(b)
    ensures Sound(ResolveRun(b, calls))
  {
    if |calls| > 0 {
      RunKeepsSound(b, Front(calls));
      ResolveKeepsSound(ResolveRun(b, Front(calls)), Last(calls).tenant, Last(calls).payload);
    }
  }

  class ContactResolver {
    var contacts: seq<ContactRow>
    var owner: map<IdKey, ContactId>

    constructor ()
      ensures State() == Book([], map[])
    {
      contacts, owner := [], map[];
    }

    ghost function State(): Book
      reads this
    {
      Book(contacts, owner)
    }

    method Attach(t: TenantId, c: ContactId, ids: seq<Identifier>)
      modifies this`owner
      ensures owner == AttachAll(old(owner), t, c, ids)
    {
      for i := 0 to |ids|
        invariant owner == AttachAll(old(owner), t, c, ids[..i])
      {
        assert Front(ids[..i + 1]) == ids[..i];
        var key := IdKey(t, ids[i]);
        if key !in owner {
          owner := owner[key := c];
        }
      }
      assert ids[..|ids|] == ids;
    }

    method ResolveContact(t: TenantId, p: Payload) returns (c: Option<ContactId>)
      modifies this
      ensures (State(), c) == Resolve(old(State()), t, p)
    {
      var ids := NormalizeIdentifiers(p.phones, p.emails);
      if |ids| == 0 {
        return None;
      }
      for i := 0 to |ids|
        invariant FirstFound(owner, t, ids) == FirstFound(owner, t, ids[i..])
        invariant State() == old(State())
      {
        var key := IdKey(t, ids[i]);
        assert ids[i..][1..] == ids[i + 1..];
        if key in owner {
          var found := owner[key];
          Attach(t, found, ids);
          return Some(found);
        }
      }
      var id := |contacts|;
      contacts := contacts + [ContactRow(t, p.name)];
      Attach(t, id, ids);
      return Some(id);
    }
  }
}
