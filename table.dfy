/**
 * The pointer table of the gesture interpreter (`self._fingers` in transformable.js).
 *
 * The source stores one record per pointer id in a JavaScript array used as a
 * property bag, and later walks it with `for ... in`.  The enumeration order of
 * such an object is fixed by the language: keys that are array indices
 * (0 .. 2^32 - 2) come first in ascending numeric order, all other keys
 * (for instance the primary-pointer id -1) follow in the order they were
 * created.  The table is modelled as the sequence of (id, record) pairs in that
 * enumeration order; `WellFormed` says the sequence is such an order.
 */
module PointerTable {
  import opened Wrappers

  datatype Point = Point(x: int, y: int)

  /**
   * One live pointer: where it was pressed, where it is now, and where it was at
   * the last processed tick (the source's `old` field; `old` is a Dafny keyword).
   */
  datatype Finger = Finger(start: Point, current: Point, previous: Point)

  datatype Entry = Entry(id: int, finger: Finger)

  /** Keys 0 .. ARRAY_INDEX_BOUND - 1 are array indices of a JavaScript array. */
  const ARRAY_INDEX_BOUND := 0xFFFF_FFFF

  predicate IsArrayIndex(k: int)
  {
    0 <= k < ARRAY_INDEX_BOUND
  }

  predicate DistinctIds(t: seq<Entry>)
  {
    forall i, j :: 0 <= i < j < |t| ==> t[i].id != t[j].id
  }

  /** Array-index keys form a prefix in ascending order; the rest keep their creation order. */
  predicate IndexKeysFirst(t: seq<Entry>)
  {
    forall i, j :: 0 <= i < j < |t| && IsArrayIndex(t[j].id) ==> IsArrayIndex(t[i].id) && t[i].id < t[j].id
  }

  predicate Ordered(t: seq<Entry>)
  {
    DistinctIds(t) && IndexKeysFirst(t)
  }

  /**
   * The same condition stated entry by entry: each entry fits in front of the
   * entries after it.  Operations on the table are stated with this form, which
   * WellFormedOrdered relates to the pairwise one.
   */
  predicate WellFormed(t: seq<Entry>)
    decreases |t|
  {
    t == [] || (Precedes(t[0], t[1..]) && WellFormed(t[1..]))
  }

  /** `e` may come before all of `rest`: its key differs from theirs, and it is a smaller array index than any array index among them. */
  predicate Precedes(e: Entry, rest: seq<Entry>)
  {
    forall j :: 0 <= j < |rest| ==> rest[j].id != e.id && (IsArrayIndex(rest[j].id) ==> IsArrayIndex(e.id) && e.id < rest[j].id)
  }

  lemma {:induction false} WellFormedOrdered(t: seq<Entry>)
    ensures WellFormed(t) <==> Ordered(t)
    decreases |t|
  {
    if t != [] {
      WellFormedOrdered(t[1..]);
      OrderedCons(t);
    }
  }

  lemma OrderedCons(t: seq<Entry>)
    requires t != []
    ensures Ordered(t) <==> Precedes(t[0], t[1..]) && Ordered(t[1..])
  {
  }

  function Keys(t: seq<Entry>): set<int>
  {
    set i | 0 <= i < |t| :: t[i].id
  }

  /** Position of the first entry with key `id`, if any. */
  function IndexOf(t: seq<Entry>, id: int): (r: Option<nat>)
    ensures r.Some? ==> r.value < |t| && t[r.value].id == id
    ensures r.None? ==> forall i :: 0 <= i < |t| ==> t[i].id != id
  {
    if t == [] then None
    else if t[0].id == id then Some(0)
    else
      match IndexOf(t[1..], id)
      case None => None
      case Some(i) => Some(i + 1)
  }

  /** `self._fingers[id]`: the record stored under `id`, or None when the property is absent. */
  function Lookup(t: seq<Entry>, id: int): Option<Finger>
  {
    match IndexOf(t, id)
    case None => None
    case Some(i) => Some(t[i].finger)
  }

  /** A key has a record exactly when it is one of the table's keys. */
  lemma LookupDefined(t: seq<Entry>, id: int)
    ensures Lookup(t, id).Some? <==> id in Keys(t)
  {
  }

  /** With distinct keys, the record found for a key is the one stored at its position. */
  lemma LookupAt(t: seq<Entry>, i: int)
    requires DistinctIds(t) && 0 <= i < |t|
    ensures Lookup(t, t[i].id) == Some(t[i].finger)
  {
  }

  /** The number of entries of a table with distinct keys is the number of its keys. */
  lemma {:induction false} KeysCount(t: seq<Entry>)
    requires DistinctIds(t)
    ensures |Keys(t)| == |t|
  {
    if t != [] {
      var rest := t[1..];
      assert DistinctIds(rest) by {
        forall i, j | 0 <= i < j < |rest| ensures rest[i].id != rest[j].id {
          assert rest[i] == t[i + 1] && rest[j] == t[j + 1];
        }
      }
      KeysCount(rest);
      KeysCons(t);
      assert t[0].id !in Keys(rest) by {
        forall i | 0 <= i < |rest| ensures rest[i].id != t[0].id {
          assert rest[i] == t[i + 1];
        }
      }
    }
  }

  lemma KeysCons(t: seq<Entry>)
    requires t != []
    ensures Keys(t) == {t[0].id} + Keys(t[1..])
  {
  }

  /** Where a new array-index key `id` goes: after every smaller array-index key. */
  function InsertionPoint(t: seq<Entry>, id: int): (j: nat)
    ensures j <= |t|
    ensures forall i :: 0 <= i < j ==> IsArrayIndex(t[i].id) && t[i].id < id
    ensures j < |t| ==> !IsArrayIndex(t[j].id) || t[j].id >= id
  {
    if t == [] || !IsArrayIndex(t[0].id) || t[0].id >= id then 0
    else 1 + InsertionPoint(t[1..], id)
  }

  /**
   * `self._fingers[id] = f`: an existing key keeps its place and gets the new
   * record; a new array-index key is inserted at its numeric position; any other
   * new key is appended.  AssignLookup and AssignOrder state the rest.
   */
  function Assign(t: seq<Entry>, id: int, f: Finger): (r: seq<Entry>)
    requires WellFormed(t)
    ensures WellFormed(r)
  {
    WellFormedOrdered(t);
    match IndexOf(t, id)
    case Some(i) =>
      ReplacedProperties(t, i, f);
      WellFormedOrdered(t[i := Entry(id, f)]);
      t[i := Entry(id, f)]
    case None =>
      if IsArrayIndex(id) then
        var j := InsertionPoint(t, id);
        InsertedProperties(t, j, Entry(id, f));
        WellFormedOrdered(t[..j] + [Entry(id, f)] + t[j..]);
        t[..j] + [Entry(id, f)] + t[j..]
      else
        InsertedProperties(t, |t|, Entry(id, f));
        assert t[..|t|] + [Entry(id, f)] + t[|t|..] == t + [Entry(id, f)];
        WellFormedOrdered(t + [Entry(id, f)]);
        t + [Entry(id, f)]
  }

  /** After the assignment the key holds the new record and every other key its old one. */
  lemma AssignLookup(t: seq<Entry>, id: int, f: Finger)
    requires WellFormed(t)
    ensures Keys(Assign(t, id, f)) == Keys(t) + {id}
    ensures Lookup(Assign(t, id, f), id) == Some(f)
    ensures forall k :: k != id ==> Lookup(Assign(t, id, f), k) == Lookup(t, k)
  {
    WellFormedOrdered(t);
    match IndexOf(t, id)
    case Some(i) =>
      ReplacedProperties(t, i, f);
    case None =>
      if IsArrayIndex(id) {
        InsertedProperties(t, InsertionPoint(t, id), Entry(id, f));
      } else {
        InsertedProperties(t, |t|, Entry(id, f));
        assert t[..|t|] + [Entry(id, f)] + t[|t|..] == t + [Entry(id, f)];
      }
  }

  /**
   * Overwriting a live key changes no position; a new key adds one entry, at the
   * end when it is not an array index, and without reordering the others.
   */
  lemma AssignOrder(t: seq<Entry>, id: int, f: Finger)
    requires WellFormed(t)
    ensures var r := Assign(t, id, f);
      && (id in Keys(t) ==> |r| == |t| && forall i :: 0 <= i < |t| ==> r[i].id == t[i].id)
      && (id !in Keys(t) ==> exists j :: 0 <= j <= |t| && r == t[..j] + [Entry(id, f)] + t[j..])
      && (id !in Keys(t) && !IsArrayIndex(id) ==> r == t + [Entry(id, f)])
  {
    var r := Assign(t, id, f);
    match IndexOf(t, id)
    case Some(i) =>
    case None =>
      if IsArrayIndex(id) {
        var j := InsertionPoint(t, id);
        assert r == t[..j] + [Entry(id, f)] + t[j..];
      } else {
        assert r == t[..|t|] + [Entry(id, f)] + t[|t|..];
      }
  }

  lemma ReplacedProperties(t: seq<Entry>, i: nat, f: Finger)
    requires Ordered(t) && i < |t|
    ensures var r := t[i := Entry(t[i].id, f)];
      && Ordered(r)
      && Keys(r) == Keys(t)
      && Lookup(r, t[i].id) == Some(f)
      && forall k :: k != t[i].id ==> Lookup(r, k) == Lookup(t, k)
  {
    var id := t[i].id;
    var r := t[i := Entry(id, f)];
    assert forall m :: 0 <= m < |t| ==> r[m].id == t[m].id;
    assert Keys(r) == Keys(t);
    LookupAt(r, i);
    forall k | k != id ensures Lookup(r, k) == Lookup(t, k) {
      if k in Keys(t) {
        var m :| 0 <= m < |t| && t[m].id == k;
        LookupAt(r, m);
        LookupAt(t, m);
      }
    }
  }

  /** The conditions under which `t[..j] + [e] + t[j..]` is a correct insertion of the new key `e.id`. */
  predicate InsertionAt(t: seq<Entry>, j: nat, e: Entry)
  {
    && Ordered(t) && j <= |t| && e.id !in Keys(t)
    && (IsArrayIndex(e.id) ==> forall i :: 0 <= i < j ==> IsArrayIndex(t[i].id) && t[i].id < e.id)
    && (IsArrayIndex(e.id) ==> j == |t| || !IsArrayIndex(t[j].id) || t[j].id >= e.id)
    && (!IsArrayIndex(e.id) ==> j == |t|)
  }

  lemma InsertedProperties(t: seq<Entry>, j: nat, e: Entry)
    requires InsertionAt(t, j, e)
    ensures var r := t[..j] + [e] + t[j..];
      && Ordered(r)
      && |r| == |t| + 1
      && Keys(r) == Keys(t) + {e.id}
      && Lookup(r, e.id) == Some(e.finger)
      && forall k :: k != e.id ==> Lookup(r, k) == Lookup(t, k)
  {
    var r := t[..j] + [e] + t[j..];
    InsertedOrdered(t, j, e);
    InsertedKeys(t, j, e);
    assert r[j] == e;
    LookupAt(r, j);
    forall k | k != e.id ensures Lookup(r, k) == Lookup(t, k) {
      InsertedLookup(t, j, e, k);
    }
  }

  lemma InsertedOrdered(t: seq<Entry>, j: nat, e: Entry)
    requires InsertionAt(t, j, e)
    ensures Ordered(t[..j] + [e] + t[j..])
  {
  }

  lemma InsertedKeys(t: seq<Entry>, j: nat, e: Entry)
    requires j <= |t|
    ensures Keys(t[..j] + [e] + t[j..]) == Keys(t) + {e.id}
  {
    var r := t[..j] + [e] + t[j..];
    assert r[j] == e;
    forall k | k in Keys(r) ensures k in Keys(t) + {e.id} {
      var m :| 0 <= m < |r| && r[m].id == k;
      if m < j { assert r[m] == t[m]; } else if m > j { assert r[m] == t[m - 1]; }
    }
    forall k | k in Keys(t) ensures k in Keys(r) {
      var m :| 0 <= m < |t| && t[m].id == k;
      var m' := if m < j then m else m + 1;
      assert r[m'] == t[m];
    }
  }

  lemma InsertedLookup(t: seq<Entry>, j: nat, e: Entry, k: int)
    requires InsertionAt(t, j, e) && k != e.id
    ensures Lookup(t[..j] + [e] + t[j..], k) == Lookup(t, k)
  {
    var r := t[..j] + [e] + t[j..];
    match IndexOf(t, k)
    case Some(m) =>
      InsertedOrdered(t, j, e);
      var m' := if m < j then m else m + 1;
      assert r[m'] == t[m];
      LookupAt(t, m);
      LookupAt(r, m');
    case None =>
      forall i | 0 <= i < |r| ensures r[i].id != k {
        if i < j { assert r[i] == t[i]; } else if i > j { assert r[i] == t[i - 1]; }
      }
  }

  /** `delete self._fingers[id]`: the entry goes; RemoveLookup and RemoveOrder state the rest. */
  function Remove(t: seq<Entry>, id: int): (r: seq<Entry>)
    requires WellFormed(t)
    ensures WellFormed(r)
  {
    WellFormedOrdered(t);
    RemoveSlice(t, id);
    match IndexOf(t, id)
    case None => Without(t, id)
    case Some(i) =>
      RemovedProperties(t, i);
      WellFormedOrdered(Without(t, id));
      Without(t, id)
  }

  /** The table with its first entry under `id` dropped. */
  function Without(t: seq<Entry>, id: int): seq<Entry>
  {
    if t == [] then []
    else if t[0].id == id then t[1..]
    else [t[0]] + Without(t[1..], id)
  }

  lemma RemoveSlice(t: seq<Entry>, id: int)
    requires DistinctIds(t)
    ensures IndexOf(t, id).None? ==> Without(t, id) == t
    ensures IndexOf(t, id).Some? ==> var i := IndexOf(t, id).value; Without(t, id) == t[..i] + t[i + 1..]
  {
  }

  /** After the deletion the key is absent and every other key keeps its record. */
  lemma RemoveLookup(t: seq<Entry>, id: int)
    requires WellFormed(t)
    ensures Keys(Remove(t, id)) == Keys(t) - {id}
    ensures Lookup(Remove(t, id), id) == None
    ensures forall k :: k != id ==> Lookup(Remove(t, id), k) == Lookup(t, k)
  {
    WellFormedOrdered(t);
    RemoveSlice(t, id);
    match IndexOf(t, id)
    case None =>
    case Some(i) =>
      RemovedProperties(t, i);
  }

  /** Deleting a live key removes exactly its entry and keeps the order of the rest; deleting an absent key changes nothing. */
  lemma RemoveOrder(t: seq<Entry>, id: int)
    requires WellFormed(t)
    ensures var r := Remove(t, id);
      && (id !in Keys(t) ==> r == t)
      && (id in Keys(t) ==> |r| == |t| - 1 && exists i :: 0 <= i < |t| && t[i].id == id && r == t[..i] + t[i + 1..])
  {
    WellFormedOrdered(t);
    RemoveSlice(t, id);
    match IndexOf(t, id)
    case None =>
    case Some(i) =>
      RemovedProperties(t, i);
  }

  lemma RemovedProperties(t: seq<Entry>, i: nat)
    requires Ordered(t) && i < |t|
    ensures var r := t[..i] + t[i + 1..];
      && Ordered(r)
      && |r| == |t| - 1
      && Keys(r) == Keys(t) - {t[i].id}
      && forall k :: k != t[i].id ==> Lookup(r, k) == Lookup(t, k)
  {
    var r := t[..i] + t[i + 1..];
    RemovedOrdered(t, i);
    RemovedKeys(t, i);
    forall k | k != t[i].id ensures Lookup(r, k) == Lookup(t, k) {
      RemovedLookup(t, i, k);
    }
  }

  lemma RemovedOrdered(t: seq<Entry>, i: nat)
    requires Ordered(t) && i < |t|
    ensures Ordered(t[..i] + t[i + 1..])
  {
  }

  lemma RemovedKeys(t: seq<Entry>, i: nat)
    requires DistinctIds(t) && i < |t|
    ensures Keys(t[..i] + t[i + 1..]) == Keys(t) - {t[i].id}
  {
    var r := t[..i] + t[i + 1..];
    forall k | k in Keys(r) ensures k in Keys(t) - {t[i].id} {
      var m :| 0 <= m < |r| && r[m].id == k;
      var m' := if m < i then m else m + 1;
      assert r[m] == t[m'];
    }
    forall k | k in Keys(t) - {t[i].id} ensures k in Keys(r) {
      var m :| 0 <= m < |t| && t[m].id == k;
      var m' := if m < i then m else m - 1;
      assert r[m'] == t[m];
    }
  }

  lemma RemovedLookup(t: seq<Entry>, i: nat, k: int)
    requires Ordered(t) && i < |t| && k != t[i].id
    ensures Lookup(t[..i] + t[i + 1..], k) == Lookup(t, k)
  {
    var r := t[..i] + t[i + 1..];
    RemovedOrdered(t, i);
    RemovedKeys(t, i);
    if k in Keys(t) {
      var m :| 0 <= m < |t| && t[m].id == k;
      var m' := if m < i then m else m - 1;
      assert r[m'] == t[m];
      LookupAt(t, m);
      LookupAt(r, m');
    }
  }

  /** A record after a processed tick: its previous position catches up with its current one. */
  function Advanced(e: Entry): Entry
  {
    Entry(e.id, e.finger.(previous := e.finger.current))
  }

  /** The table after the copying loop at the end of a processed tick. */
  function AdvanceAll(t: seq<Entry>): (r: seq<Entry>)
    ensures |r| == |t|
    ensures forall i :: 0 <= i < |t| ==> r[i].id == t[i].id
    ensures WellFormed(t) ==> WellFormed(r) && Keys(r) == Keys(t)
  {
    var r := seq(|t|, i requires 0 <= i < |t| => Advanced(t[i]));
    WellFormedOrdered(t);
    WellFormedOrdered(r);
    r
  }
  /** After the copying loop every record's previous position is its current one, and nothing else changed. */
  lemma AdvanceAllLookup(t: seq<Entry>, k: int)
    requires WellFormed(t)
    ensures Lookup(t, k).None? ==> Lookup(AdvanceAll(t), k).None?
    ensures Lookup(t, k).Some? ==>
      var f := Lookup(t, k).value;
      Lookup(AdvanceAll(t), k) == Some(Finger(f.start, f.current, f.current))
  {
    var r := AdvanceAll(t);
    WellFormedOrdered(t);
    WellFormedOrdered(r);
    LookupDefined(t, k);
    LookupDefined(r, k);
    if k in Keys(t) {
      var m :| 0 <= m < |t| && t[m].id == k;
      LookupAt(t, m);
      LookupAt(r, m);
    }
  }

  /**
   * The first entry in enumeration order is the smallest array-index key when the
   * table has one; when it is not an array index, no key is.
   */
  lemma FirstEntry(t: seq<Entry>)
    requires WellFormed(t) && t != []
    ensures (exists k :: k in Keys(t) && IsArrayIndex(k)) ==>
      IsArrayIndex(t[0].id) && forall k :: k in Keys(t) && IsArrayIndex(k) ==> t[0].id <= k
    ensures !IsArrayIndex(t[0].id) ==> forall i :: 0 <= i < |t| ==> !IsArrayIndex(t[i].id)
  {
  }
}
