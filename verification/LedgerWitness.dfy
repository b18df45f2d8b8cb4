/** The gate condition is real: records acknowledged back to front make the snapshot fail. */
module LedgerWitness {
  import opened Basics
  import opened OrderedMaps
  import opened Ledger
  import opened LedgerInvariant

  const PAGE := Private("page")
  const SECOND := Ref(1, "page", 1, 1, 1)
  const FIRST := Ref(2, "page", 0, 0, 1)

  function Page(digest: Digest): Artifact { Artifact("owner", [1, 2], 2, 0, digest([1, 2]), 0, []) }

  function Backwards(): seq<Entry<nat, Ref>> { [Entry(1, SECOND), Entry(0, FIRST)] }

  lemma Single<K, V>(k: K, v: V, j: K, w: V)
    ensures
      var m := [Entry(k, v)];
      && (Has(m, j) <==> j == k) && Get(m, k) == v && Put(m, k, w) == [Entry(k, w)] && Remove(m, k) == []
      && (j != k ==> Put(m, j, w) == [Entry(k, v), Entry(j, w)])
  {
    var m := [Entry(k, v)];
    assert m[1..] == [];
    assert Find(m, k) == 0;
  }

  lemma Held(digest: Digest)
    ensures
      var s := Hold(Init, digest, "owner", PAGE, [1, 2], 2, 0).0;
      s.artifacts == [Entry(PAGE, Page(digest))] && !Failed(s) && s.refCount == 0 && s.terminal.None?
  {
    assert [1, 2][..2] == [1, 2];
  }

  lemma Recorded(s: State, digest: Digest)
    requires s.artifacts == [Entry(PAGE, Page(digest))] && !Failed(s) && s.refCount == 0
    ensures
      var t := RecordAckSource(RecordAckSource(s, PAGE, SECOND, [2]), PAGE, FIRST, [1]);
      t == s.(artifacts := [Entry(PAGE, Page(digest).(refs := Backwards()))], refCount := 2)
  {
    hide Has, Get, Put;
    var a := Page(digest);
    var b := a.(refs := [Entry(1, SECOND)]);
    var c := a.(refs := Backwards());
    assert a.bytes[1..2] == [2] && a.bytes[0..1] == [1];
    Single(PAGE, a, PAGE, b);
    Single(PAGE, b, PAGE, c);
    Single(1 as nat, SECOND, 0, FIRST);
    Nothing<nat, Ref>(1, SECOND);
  }

  lemma Nothing<K, V>(k: K, v: V)
    ensures !Has<K, V>([], k) && Put([], k, v) == [Entry(k, v)]
  {
  }

  /** Both records are durable, the artifact drains completely, and the gate refuses. */
  lemma BackToFrontFails(digest: Digest, now: nat)
    ensures
      var s0 := Hold(Init, digest, "owner", PAGE, [1, 2], 2, 0).0;
      var s1 := RecordAckSource(RecordAckSource(s0, PAGE, SECOND, [2]), PAGE, FIRST, [1]);
      var s2 := FailOwnership(s1, "cancelled", 0);
      && Readable(s2, "owner", PAGE)
      && var (t, r) := Acknowledge(s2, digest, "owner", Echo(ReadChunk(s2, digest, "owner", PAGE), "durable"));
         r.Ok? && Failed(t) && !GateOk(SnapshotOf(t, "owner", now))
  {
    Held(digest);
    var s0 := Hold(Init, digest, "owner", PAGE, [1, 2], 2, 0).0;
    Recorded(s0, digest);
    var s1 := RecordAckSource(RecordAckSource(s0, PAGE, SECOND, [2]), PAGE, FIRST, [1]);
    Drained(s1, digest, now);
  }

  lemma Drained(s: State, digest: Digest, now: nat)
    requires s.artifacts == [Entry(PAGE, Page(digest).(refs := Backwards()))] && !Failed(s) && s.terminal.None?
    ensures
      var s2 := FailOwnership(s, "cancelled", 0);
      && Readable(s2, "owner", PAGE)
      && var (t, r) := Acknowledge(s2, digest, "owner", Echo(ReadChunk(s2, digest, "owner", PAGE), "durable"));
         r.Ok? && Failed(t) && !GateOk(SnapshotOf(t, "owner", now))
  {
    hide GateOk, Put, Has, Get, Remove;
    var a := Page(digest).(refs := Backwards());
    var v := Moved(a);
    var s2 := FailOwnership(s, "cancelled", 0);
    Single(PAGE, a, PAGE, a);
    assert s2.inventory == [Entry(PAGE, v)];
    Single(PAGE, v, PAGE, v.(acknowledged := 2));
    assert a.bytes[..2] == a.bytes;
    var t := Acknowledge(s2, digest, "owner", Echo(ReadChunk(s2, digest, "owner", PAGE), "durable")).0;
    assert t.inventory == [Entry(PAGE, v.(acknowledged := 2))];
    Refused(t, v.(acknowledged := 2), now);
  }

  lemma CoveredPair(acknowledged: nat)
    requires acknowledged >= 2
    ensures Covered(Backwards(), acknowledged) == [SECOND, FIRST]
  {
    var refs := Backwards();
    var rest := refs[1..];
    assert rest == [Entry(0, FIRST)];
    assert rest[1..] == [];
    assert Covered(rest[1..], acknowledged) == [];
    assert Covered(rest, acknowledged) == [FIRST] + [];
    assert Covered(refs, acknowledged) == [SECOND] + Covered(rest, acknowledged);
  }

  lemma Refused(t: State, v: Inventory, now: nat)
    requires Failed(t) && t.inventory == [Entry(PAGE, v)] && v.owner == "owner" && v.acknowledged == 2
    requires v.refs == Backwards()
    ensures !GateOk(SnapshotOf(t, "owner", now))
  {
    hide Total;
    CoveredPair(2);
    var rest := t.inventory[1..];
    assert |rest| == 0;
    assert Reports(rest, "owner") == [];
    var rows := Reports(t.inventory, "owner");
    assert rows == [Report(t.inventory[0])] + Reports(rest, "owner");
    assert rows[0].refs == [SECOND, FIRST];
    assert !RefsInRange(rows[0].refs, 2) by {
      var refs := rows[0].refs;
      assert refs[0].offset + refs[0].bytes > refs[1].offset;
    }
  }
}
