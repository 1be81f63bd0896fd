/** Transactions, blocks and their context-free checks (src/main.h, src/main.cpp). */
module Transactions {
  import opened Common
  import opened Arith

  const MAX_UINT32: nat := 0xFFFF_FFFF
  const MAX_INT32: nat := 0x7FFF_FFFF
  const MAX_MONEY: int := 0x7FFF_FFFF_FFFF_FFFF
  const MAX_BLOCK_SIZE: nat := 1_000_000
  const MAX_BLOCK_SIZE_GEN: nat := MAX_BLOCK_SIZE / 2
  const MAX_BLOCK_SIGOPS: nat := MAX_BLOCK_SIZE / 50
  const MIN_TX_FEE: int := CENT / 10
  const MIN_RELAY_TX_FEE: int := CENT / 50

  predicate MoneyRange(v: int) { 0 <= v <= MAX_MONEY }

  type Script = seq<byte>

  datatype OutPoint = OutPoint(hash: Hash, n: nat) {
    predicate IsNull() { hash == 0 && n == MAX_UINT32 }
  }

  datatype TxIn = TxIn(prevout: OutPoint, scriptSig: Script)

  datatype TxOut = TxOut(value: int, script: Script) {
    predicate IsEmpty() { value == 0 && script == [] }
  }

  /** `hash`, `size` and `sigOps` stand for GetHash, the serialised size and GetLegacySigOpCount. */
  datatype Tx = Tx(hash: Hash, time: nat, vin: seq<TxIn>, vout: seq<TxOut>, size: nat, sigOps: nat) {
    predicate IsCoinBase() { |vin| == 1 && vin[0].prevout.IsNull() && |vout| >= 1 }

    predicate IsCoinStake() {
      |vin| > 0 && !vin[0].prevout.IsNull() && |vout| >= 2 && vout[0].IsEmpty()
    }

    function ValueOut(): int { SumOuts(vout) }
  }

  function SumOuts(outs: seq<TxOut>): int {
    if outs == [] then 0 else SumOuts(outs[..|outs| - 1]) + outs[|outs| - 1].value
  }

  datatype Block = Block(bits: nat, time: nat, nonce: nat, vtx: seq<Tx>, size: nat) {
    predicate IsProofOfStake() { |vtx| > 1 && vtx[1].IsCoinStake() }
  }

  // CTransaction::CheckTransaction

  predicate CheckTransaction(tx: Tx) {
    && tx.vin != []
    && tx.vout != []
    && tx.size <= MAX_BLOCK_SIZE
    && (forall i :: 0 <= i < |tx.vout| ==>
          && (tx.vout[i].IsEmpty() ==> tx.IsCoinBase() || tx.IsCoinStake())
          && MoneyRange(tx.vout[i].value)
          && MoneyRange(SumOuts(tx.vout[..i + 1])))
    && (forall i, j :: 0 <= i < j < |tx.vin| ==> tx.vin[i].prevout != tx.vin[j].prevout)
    && (if tx.IsCoinBase() then 2 <= |tx.vin[0].scriptSig| <= 100
        else forall i :: 0 <= i < |tx.vin| ==> !tx.vin[i].prevout.IsNull())
  }

  function SumSigOps(vtx: seq<Tx>): nat {
    if vtx == [] then 0 else SumSigOps(vtx[..|vtx| - 1]) + vtx[|vtx| - 1].sigOps
  }

  predicate UniqueTxids(vtx: seq<Tx>) {
    forall i, j :: 0 <= i < j < |vtx| ==> vtx[i].hash != vtx[j].hash
  }

  /**
   * CBlock::CheckBlock without the block signature. `headerOk` stands for the checks on the
   * header alone: proof of work, Merkle root, and the time drift against the clock.
   */
  predicate CheckBlock(b: Block, headerOk: bool) {
    && b.vtx != []
    && |b.vtx| <= MAX_BLOCK_SIZE
    && b.size <= MAX_BLOCK_SIZE
    && b.vtx[0].IsCoinBase()
    && CheckTransaction(b.vtx[0])
    && headerOk
    && (b.IsProofOfStake() ==>
          && b.nonce == 0
          && |b.vtx[0].vout| == 1
          && b.vtx[0].vout[0].IsEmpty()
          && b.time == b.vtx[1].time
          && CheckTransaction(b.vtx[1]))
    && (forall i :: (if b.IsProofOfStake() then 2 else 1) <= i < |b.vtx| ==>
          && !b.vtx[i].IsCoinBase()
          && !b.vtx[i].IsCoinStake()
          && b.vtx[i].time <= b.time
          && CheckTransaction(b.vtx[i]))
    && UniqueTxids(b.vtx)
    && SumSigOps(b.vtx) <= MAX_BLOCK_SIGOPS
  }

  /** Only the first transaction of a checked block is a coinbase, and each one is well formed. */
  lemma CheckedBlockShape(b: Block, headerOk: bool, i: nat)
    requires CheckBlock(b, headerOk) && i < |b.vtx|
    ensures CheckTransaction(b.vtx[i])
    ensures b.vtx[i].IsCoinBase() <==> i == 0
    ensures b.vtx[i].IsCoinStake() <==> i == 1 && b.IsProofOfStake()
  {
  }

  // CTransaction::GetMinFee

  datatype FeeMode = GMF_BLOCK | GMF_RELAY | GMF_SEND

  function DustOutputs(outs: seq<TxOut>): nat {
    if outs == [] then 0
    else DustOutputs(outs[..|outs| - 1]) +
         (var o := outs[|outs| - 1]; if o.value < CENT && !o.IsEmpty() then 1 else 0)
  }

  function BaseFee(tx: Tx, mode: FeeMode): int {
    if tx.IsCoinStake() then CENT else if mode == GMF_RELAY then MIN_RELAY_TX_FEE else MIN_TX_FEE
  }

  /** The fee for some weight and dust before the block fills up. */
  function PlainFee(baseFee: int, free: bool, dust: nat, bytes: nat): int {
    (if free then 0 else (1 + bytes / 1000) * baseFee) + dust * baseFee
  }

  function Raised(plain: int, size: nat): int {
    if size >= MAX_BLOCK_SIZE_GEN then MAX_MONEY else plain * (MAX_BLOCK_SIZE_GEN / (MAX_BLOCK_SIZE_GEN - size))
  }

  function GetMinFee(tx: Tx, blockSize: nat, allowFree: bool, mode: FeeMode, bytes: nat): (fee: int)
    ensures MoneyRange(fee)
    ensures tx.IsCoinStake() && !allowFree && blockSize == 1 ==> fee >= CENT
  {
    var baseFee := BaseFee(tx, mode);
    var size := blockSize + bytes;
    var free := allowFree && (if blockSize == 1 then bytes < 1000 else size < 27000);
    var plain := PlainFee(baseFee, free, DustOutputs(tx.vout), bytes);
    assert !free ==> plain >= baseFee by {
      MulAtLeast(1 + bytes / 1000, baseFee);
      MulAtLeast(1 + DustOutputs(tx.vout), baseFee);
    }
    var fee := if blockSize != 1 && size >= MAX_BLOCK_SIZE_GEN / 2 then Raised(plain, size) else plain;
    if MoneyRange(fee) then fee else MAX_MONEY
  }

  lemma MulAtLeast(k: int, v: int)
    requires k >= 1 && v >= 0
    ensures k * v == (k - 1) * v + v
    ensures k * v >= v
  {
  }

  /**
   * A transaction of less than a thousand bytes that is not free pays 200 to be relayed and 1000 to be sent or
   * mined, and as much again for each output below a cent; a coinstake pays a cent.
   */
  lemma SmallFee(tx: Tx, mode: FeeMode, bytes: nat)
    requires bytes < 1000
    ensures var base := if tx.IsCoinStake() then 10_000 else if mode == GMF_RELAY then 200 else 1000;
            GetMinFee(tx, 1, false, mode, bytes) == Min(base + DustOutputs(tx.vout) * base, MAX_MONEY)
  {
    hide DustOutputs;
  }

  /** From a quarter to half of the largest block on, the fee is multiplied as the room to the half is used up. */
  lemma CrowdedFee(tx: Tx, blockSize: nat, mode: FeeMode, bytes: nat, k: nat)
    requires DustOutputs(tx.vout) == 0 && blockSize > 1 && 250_000 <= blockSize + bytes < 500_000
    requires var room := 500_000 - blockSize - bytes; k * room <= 500_000 < (k + 1) * room
    ensures var base := if tx.IsCoinStake() then 10_000 else if mode == GMF_RELAY then 200 else 1000;
            GetMinFee(tx, blockSize, true, mode, bytes) == Min((1 + bytes / 1000) * base * k, MAX_MONEY)
  {
    hide DustOutputs, PlainFee, Raised;
    var base := BaseFee(tx, mode);
    DivUnique(500_000, 500_000 - blockSize - bytes, k);
    var plain := (1 + bytes / 1000) * base;
    assert PlainFee(base, false, 0, bytes) == plain by { NoDust(base, bytes); }
    assert Raised(plain, blockSize + bytes) == plain * k by { RaisedBy(plain, blockSize + bytes, k); }
    MulMono(0, base, 1 + bytes / 1000);
    MulMono(0, plain, k);
  }

  lemma NoDust(base: int, bytes: nat)
    ensures PlainFee(base, false, 0, bytes) == (1 + bytes / 1000) * base
  {
  }

  lemma RaisedBy(plain: int, size: nat, k: nat)
    requires size < 500_000 && 500_000 / (500_000 - size) == k
    ensures Raised(plain, size) == plain * k
  {
  }

  /** A block that is half full takes no transaction for less than all the money there is. */
  lemma FullFee(tx: Tx, blockSize: nat, mode: FeeMode, bytes: nat)
    requires blockSize > 1 && blockSize + bytes >= 500_000
    ensures GetMinFee(tx, blockSize, true, mode, bytes) == MAX_MONEY
  {
    hide DustOutputs;
  }

  /** Under a thousand bytes, or in the first 27000 bytes of a block, only outputs below a cent cost anything. */
  lemma FreeArea(tx: Tx, blockSize: nat, mode: FeeMode, bytes: nat)
    requires DustOutputs(tx.vout) == 0 && (if blockSize == 1 then bytes < 1000 else blockSize + bytes < 27_000)
    ensures GetMinFee(tx, blockSize, true, mode, bytes) == 0
  {
    hide DustOutputs;
  }

  lemma PlainFeeGrows(baseFee: int, free1: bool, free2: bool, dust1: nat, dust2: nat, bytes1: nat, bytes2: nat)
    requires baseFee >= 0 && (free2 ==> free1) && dust1 <= dust2 && bytes1 <= bytes2
    ensures 0 <= PlainFee(baseFee, free1, dust1, bytes1) <= PlainFee(baseFee, free2, dust2, bytes2)
  {
    DivMono(bytes1, bytes2, 1000);
    MulMono(1 + bytes1 / 1000, 1 + bytes2 / 1000, baseFee);
    MulMono(0, 1 + bytes1 / 1000, baseFee);
    MulMono(dust1, dust2, baseFee);
    MulMono(0, dust1, baseFee);
  }

  lemma RaisedGrows(plain1: int, plain2: int, size1: nat, size2: nat)
    requires 0 <= plain1 <= plain2 && size1 <= size2 < MAX_BLOCK_SIZE_GEN
    ensures plain1 <= Raised(plain1, size1) <= Raised(plain2, size2)
  {
    var room1, room2 := MAX_BLOCK_SIZE_GEN - size1, MAX_BLOCK_SIZE_GEN - size2;
    var f1, f2 := MAX_BLOCK_SIZE_GEN / room1, MAX_BLOCK_SIZE_GEN / room2;
    FactorGrows(MAX_BLOCK_SIZE_GEN, room1, room2);
    MulMono(1, f1, plain1);
    MulMono(f1, f2, plain1);
    MulMono(plain1, plain2, f2);
  }

  lemma FactorGrows(full: int, room1: int, room2: int)
    requires 0 < room2 <= room1 <= full
    ensures 1 <= full / room1 <= full / room2
  {
    DivLower(full, room1, 1);
    DivBounds(full, room1);
    MulMono(room2, room1, full / room1);
    DivLower(full, room2, full / room1);
  }

  /** The minimal fee never falls when a transaction gets bigger or dustier, or the block fuller. */
  lemma MinFeeGrows(tx1: Tx, tx2: Tx, block1: nat, block2: nat, allowFree: bool, mode: FeeMode, bytes1: nat,
                    bytes2: nat)
    requires tx1.IsCoinStake() == tx2.IsCoinStake() && DustOutputs(tx1.vout) <= DustOutputs(tx2.vout)
    requires bytes1 <= bytes2 && block1 <= block2 && (block1 == 1 <==> block2 == 1)
    ensures GetMinFee(tx1, block1, allowFree, mode, bytes1) <= GetMinFee(tx2, block2, allowFree, mode, bytes2)
  {
    var free1 := allowFree && (if block1 == 1 then bytes1 < 1000 else block1 + bytes1 < 27000);
    var free2 := allowFree && (if block2 == 1 then bytes2 < 1000 else block2 + bytes2 < 27000);
    var dust1, dust2 := DustOutputs(tx1.vout), DustOutputs(tx2.vout);
    var base := BaseFee(tx1, mode);
    hide PlainFee, Raised, DustOutputs;
    PlainFeeGrows(base, free1, free2, dust1, dust2, bytes1, bytes2);
    var plain1, plain2 := PlainFee(base, free1, dust1, bytes1), PlainFee(base, free2, dust2, bytes2);
    var size1, size2 := block1 + bytes1, block2 + bytes2;
    if size2 < MAX_BLOCK_SIZE_GEN {
      RaisedGrows(plain1, plain2, size1, size2);
      RaisedGrows(plain2, plain2, size1, size2);
    } else {
      FilledCosts(plain2, size2);
    }
  }

  lemma FilledCosts(plain: int, size: nat)
    requires size >= MAX_BLOCK_SIZE_GEN
    ensures Raised(plain, size) == MAX_MONEY
  {
  }

  // CScript() << nHeight, the prefix AcceptBlock demands of a coinbase script

  function Magnitude(n: nat): (s: seq<byte>)
    ensures s != []
  {
    if n < 128 then [n as byte] else [(n % 256) as byte] + Magnitude(n / 256)
  }

  function LittleEndian(s: seq<byte>): nat {
    if s == [] then 0 else s[0] as nat + 256 * LittleEndian(s[1..])
  }

  lemma MagnitudeValue(n: nat)
    ensures LittleEndian(Magnitude(n)) == n
  {
    if n >= 128 {
      MagnitudeValue(n / 256);
      assert Magnitude(n)[1..] == Magnitude(n / 256);
    }
  }

  lemma MagnitudeLength(n: nat)
    requires n <= MAX_INT32
    ensures |Magnitude(n)| <= 4
  {
    if n >= 128 {
      var n1 := n / 256;
      if n1 >= 128 {
        var n2 := n1 / 256;
        if n2 >= 128 {
          assert n2 / 256 < 128;
          assert |Magnitude(n2)| <= 2;
        }
        assert |Magnitude(n1)| <= 3;
      }
    }
  }

  function HeightScript(height: nat): (s: Script)
    requires height <= MAX_INT32
    ensures s != []
  {
    MagnitudeLength(height);
    if height == 0 then [0]
    else if height <= 16 then [(80 + height) as byte]
    else [|Magnitude(height)| as byte] + Magnitude(height)
  }

  /** Height pushes are prefix-free: a script cannot start with the pushes of two heights. */
  lemma HeightScriptInjective(script: Script, h1: nat, h2: nat)
    requires h1 <= MAX_INT32 && h2 <= MAX_INT32
    requires HeightScript(h1) <= script && HeightScript(h2) <= script
    ensures h1 == h2
  {
    MagnitudeLength(h1);
    MagnitudeLength(h2);
    assert HeightScript(h1)[0] == script[0] == HeightScript(h2)[0];
    if h1 > 16 && h2 > 16 {
      assert Magnitude(h1) == script[1..1 + |Magnitude(h1)|] by {
        assert forall i :: 0 <= i < |Magnitude(h1)| ==> Magnitude(h1)[i] == HeightScript(h1)[i + 1];
      }
      assert Magnitude(h2) == script[1..1 + |Magnitude(h2)|] by {
        assert forall i :: 0 <= i < |Magnitude(h2)| ==> Magnitude(h2)[i] == HeightScript(h2)[i + 1];
      }
      MagnitudeValue(h1);
      MagnitudeValue(h2);
    }
  }
}
