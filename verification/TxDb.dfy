/**
 * The transaction index: where each transaction is stored and which of its outputs are spent
 * (CDiskTxPos and CTxIndex in src/main.h, the marking loops of ConnectInputs and
 * DisconnectInputs in src/main.cpp).
 */
module TxDb {
  import opened Common
  import opened Transactions

  datatype DiskTxPos = DiskTxPos(file: nat, blockPos: nat, txPos: nat) {
    predicate IsNull() { file == MAX_UINT32 }
  }

  const NULL_POS := DiskTxPos(MAX_UINT32, 0, 0)

  datatype TxIndex = TxIndex(pos: DiskTxPos, spent: seq<DiskTxPos>)

  type Db = map<Hash, TxIndex>

  function NewIndex(pos: DiskTxPos, outputs: nat): TxIndex {
    TxIndex(pos, seq(outputs, _ => NULL_POS))
  }

  predicate HasOutput(db: Db, o: OutPoint) {
    o.hash in db && o.n < |db[o.hash].spent|
  }

  predicate Unspent(db: Db, o: OutPoint) {
    HasOutput(db, o) && db[o.hash].spent[o.n].IsNull()
  }

  function SetMark(db: Db, o: OutPoint, mark: DiskTxPos): Db
    requires HasOutput(db, o)
  {
    db[o.hash := db[o.hash].(spent := db[o.hash].spent[o.n := mark])]
  }

  function Points(vin: seq<TxIn>): (s: seq<OutPoint>)
    ensures |s| == |vin|
    ensures forall i :: 0 <= i < |vin| ==> s[i] == vin[i].prevout
  {
    seq(|vin|, i requires 0 <= i < |vin| => vin[i].prevout)
  }

  predicate Distinct(ins: seq<OutPoint>) {
    forall i, j :: 0 <= i < j < |ins| ==> ins[i] != ins[j]
  }

  /** Marks the outputs in order; fails at one that is missing or already spent. */
  function Spend(db: Db, ins: seq<OutPoint>, mark: DiskTxPos): Option<Db> {
    if ins == [] then Some(db)
    else
      var before :- Spend(db, ins[..|ins| - 1], mark);
      var o := ins[|ins| - 1];
      if Unspent(before, o) then Some(SetMark(before, o, mark)) else None
  }

  /** Clears the marks in order; fails at an output that is missing. */
  function Unspend(db: Db, ins: seq<OutPoint>): Option<Db> {
    if ins == [] then Some(db)
    else
      var before :- Unspend(db, ins[..|ins| - 1]);
      var o := ins[|ins| - 1];
      if HasOutput(before, o) then Some(SetMark(before, o, NULL_POS)) else None
  }

  /** `after` is `db` with exactly the marks of `ins` set to `mark`. */
  ghost predicate Marked(db: Db, after: Db, ins: seq<OutPoint>, mark: DiskTxPos) {
    && after.Keys == db.Keys
    && (forall h :: h in db ==> after[h].pos == db[h].pos && |after[h].spent| == |db[h].spent|)
    && (forall h, n {:trigger after[h].spent[n]} :: h in db && 0 <= n < |db[h].spent| ==>
          after[h].spent[n] == if OutPoint(h, n) in ins then mark else db[h].spent[n])
  }

  lemma MarkedStep(db: Db, before: Db, rest: seq<OutPoint>, o: OutPoint, mark: DiskTxPos)
    requires Marked(db, before, rest, mark) && HasOutput(before, o)
    ensures Marked(db, SetMark(before, o, mark), rest + [o], mark)
  {
    var after := SetMark(before, o, mark);
    forall h, n | h in db && 0 <= n < |db[h].spent|
      ensures after[h].spent[n] == if OutPoint(h, n) in rest + [o] then mark else db[h].spent[n]
    {
      assert before[h].spent[n] == if OutPoint(h, n) in rest then mark else db[h].spent[n];
      if OutPoint(h, n) == o {
        assert (rest + [o])[|rest|] == o;
      } else if OutPoint(h, n) in rest {
        assert OutPoint(h, n) in rest + [o];
      }
    }
  }

  lemma {:induction false} SpendMarks(db: Db, ins: seq<OutPoint>, mark: DiskTxPos)
    requires Spend(db, ins, mark).Some?
    requires !mark.IsNull()
    ensures Marked(db, Spend(db, ins, mark).value, ins, mark)
    ensures forall o :: o in ins ==> Unspent(db, o)
    ensures Distinct(ins)
  {
    if ins != [] {
      var rest, o := ins[..|ins| - 1], ins[|ins| - 1];
      SpendMarks(db, rest, mark);
      assert ins == rest + [o];
      var before := Spend(db, rest, mark).value;
      MarkedStep(db, before, rest, o, mark);
      StillUnspent(db, before, rest, o, mark);
    }
  }

  lemma StillUnspent(db: Db, before: Db, rest: seq<OutPoint>, o: OutPoint, mark: DiskTxPos)
    requires Marked(db, before, rest, mark) && !mark.IsNull() && Unspent(before, o)
    ensures o !in rest && Unspent(db, o)
  {
    assert OutPoint(o.hash, o.n) == o;
    assert before[o.hash].spent[o.n] == if o in rest then mark else db[o.hash].spent[o.n];
  }

  lemma {:induction false} SpendSucceeds(db: Db, ins: seq<OutPoint>, mark: DiskTxPos)
    requires forall o :: o in ins ==> Unspent(db, o)
    requires Distinct(ins)
    requires !mark.IsNull()
    ensures Spend(db, ins, mark).Some?
  {
    if ins != [] {
      var rest, o := ins[..|ins| - 1], ins[|ins| - 1];
      SpendSucceeds(db, rest, mark);
      SpendMarks(db, rest, mark);
      assert o in ins;
      assert OutPoint(o.hash, o.n) == o;
      assert o !in rest;
    }
  }

  lemma {:induction false} UnspendMarks(db: Db, ins: seq<OutPoint>)
    ensures Unspend(db, ins).Some? <==> forall o :: o in ins ==> HasOutput(db, o)
    ensures Unspend(db, ins).Some? ==> Marked(db, Unspend(db, ins).value, ins, NULL_POS)
  {
    if ins != [] {
      var rest, o := ins[..|ins| - 1], ins[|ins| - 1];
      UnspendMarks(db, rest);
      assert ins == rest + [o];
      assert o in ins;
      if Unspend(db, ins).Some? { MarkedStep(db, Unspend(db, rest).value, rest, o, NULL_POS); }
    }
  }

  /**
   * Undo of one transaction's marks: clearing them gives back the index, whatever other
   * entries were dropped meanwhile, as long as none of the spent outputs lived in one.
   * Null marks must be canonical, as SetNull writes only one null position.
   */
  lemma UnspendUndoesSpend(db: Db, ins: seq<OutPoint>, mark: DiskTxPos, dropped: set<Hash>)
    requires Spend(db, ins, mark).Some? && !mark.IsNull()
    requires CanonicalNulls(db)
    requires forall o :: o in ins ==> o.hash !in dropped
    ensures Unspend(Spend(db, ins, mark).value - dropped, ins) == Some(db - dropped)
  {
    SpendMarks(db, ins, mark);
    var after := Spend(db, ins, mark).value;
    var w := after - dropped;
    UnspendMarks(w, ins);
    assert forall o :: o in ins ==> Unspent(db, o);
    assert forall o :: o in ins ==> HasOutput(w, o);
    var undone := Unspend(w, ins).value;
    forall h | h in w ensures undone[h] == db[h] {
      forall n | 0 <= n < |db[h].spent| ensures undone[h].spent[n] == db[h].spent[n] {
        if OutPoint(h, n) in ins {
          assert Unspent(db, OutPoint(h, n));
        } else {
          assert after[h].spent[n] == db[h].spent[n];
        }
      }
      assert undone[h].spent == db[h].spent;
    }
    assert undone == db - dropped;
  }

  ghost predicate CanonicalNulls(db: Db) {
    forall h, n :: h in db && 0 <= n < |db[h].spent| && db[h].spent[n].IsNull() ==> db[h].spent[n] == NULL_POS
  }

  lemma SpendKeepsCanonical(db: Db, ins: seq<OutPoint>, mark: DiskTxPos)
    requires Spend(db, ins, mark).Some? && !mark.IsNull() && CanonicalNulls(db)
    ensures CanonicalNulls(Spend(db, ins, mark).value)
  {
    SpendMarks(db, ins, mark);
  }
}
