/**
 * IdPair: the key (dataplane id, physical table id) of the table-id registry.
 * The Java object also keeps the table id as a library TableId object;
 * `equals` and `hashCode` look at the two integers only.
 */
module IdPairs {
  import opened JavaInts

  /** The library's TableId wrapper around a table number. */
  datatype TableId = TableId(value: int)

  datatype IdPair = IdPair(dataplaneId: int, tableId: int, tableIdObj: TableId)
  {
    /** The relation every constructed pair keeps between its two table fields. */
    predicate Valid() { tableIdObj.value == tableId }
  }

  /** `new IdPair(int dataplaneId, int tableId)`. */
  function FromInt(dataplaneId: int, tableId: int): (p: IdPair)
    ensures p.Valid()
    ensures p.dataplaneId == dataplaneId && p.tableId == tableId
  {
    IdPair(dataplaneId, tableId, TableId(tableId))
  }

  /** `new IdPair(int dataplaneId, TableId tableId)`. */
  function FromTableId(dataplaneId: int, tableId: TableId): (p: IdPair)
    ensures p.Valid()
    ensures p.dataplaneId == dataplaneId && p.tableIdObj == tableId
  {
    IdPair(dataplaneId, tableId.value, tableId)
  }

  /** `equals`: the same dataplane id and the same table id. */
  predicate Equals(a: IdPair, b: IdPair)
  {
    a.dataplaneId == b.dataplaneId && a.tableId == b.tableId
  }

  /** `hashCode`: 31 * dataplaneId + tableId in 32-bit arithmetic. */
  function HashCode(p: IdPair): (h: int)
    requires IsInt32(p.dataplaneId) && IsInt32(p.tableId)
    ensures IsInt32(h)
    ensures (h - (31 * p.dataplaneId + p.tableId)) % TWO_32 == 0
  {
    Wrap32(31 * Wrap32(p.dataplaneId) + p.tableId)
  }

  /** Both constructors give the same pair for the same numbers. */
  lemma ConstructorsAgree(dataplaneId: int, t: int)
    ensures FromInt(dataplaneId, t) == FromTableId(dataplaneId, TableId(t))
    ensures Equals(FromInt(dataplaneId, t), FromTableId(dataplaneId, TableId(t)))
  {
  }

  /**
   * On constructed pairs Java's `equals` coincides with value equality, so a
   * Dafny map keyed by IdPair behaves like the Java HashMap keyed by it.
   */
  lemma EqualsIsIdentity(a: IdPair, b: IdPair)
    requires a.Valid() && b.Valid()
    ensures Equals(a, b) <==> a == b
  {
  }

  /** `equals` is an equivalence relation. */
  lemma EqualsIsEquivalence(a: IdPair, b: IdPair, c: IdPair)
    ensures Equals(a, a)
    ensures Equals(a, b) ==> Equals(b, a)
    ensures Equals(a, b) && Equals(b, c) ==> Equals(a, c)
  {
  }

  /** Equal pairs have equal hash codes, the contract HashMap relies on. */
  lemma EqualPairsHashEqually(a: IdPair, b: IdPair)
    requires IsInt32(a.dataplaneId) && IsInt32(a.tableId)
    requires IsInt32(b.dataplaneId) && IsInt32(b.tableId)
    requires Equals(a, b)
    ensures HashCode(a) == HashCode(b)
  {
  }

  /** The hash does not identify a pair: (0, 31) and (1, 0) collide. */
  lemma HashCollision()
    ensures HashCode(FromInt(0, 31)) == HashCode(FromInt(1, 0))
    ensures !Equals(FromInt(0, 31), FromInt(1, 0))
  {
  }
}
