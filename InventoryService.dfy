/** The inventory store of services/inventoryService.ts: the stored batches, the duplicate
    merge and the batch update used after cooking. */
module InventoryService {

  import opened Types
  import opened Text
  import opened Lists
  import Pantry

  /** `getFreshnessStatus`, given the whole days from today to the expiry date. */
  function Freshness(diffDays: int): (r: Status)
    ensures r == Expired <==> diffDays < 0
    ensures r == Expiring <==> 0 <= diffDays <= 3
    ensures r == Normal <==> diffDays > 3
  {
    if diffDays < 0 then Expired
    else if diffDays <= 3 then Expiring
    else Normal
  }

  /** The grouping key of `mergeDuplicates`: trimmed lower-case name, `::`, trimmed lower-case unit. */
  function MergeKey(item: InventoryItem): string
  {
    Lower(Trim(item.name)) + "::" + Lower(Trim(item.unit))
  }

  /** Since the key is a plain concatenation, a name holding `::` can meet another name and
      unit: "salt::fine" in grams and "salt" in "fine::g" share a key although their names
      differ. */
  lemma KeyCanCollide(a: InventoryItem, b: InventoryItem, x: string, y: string, z: string)
    requires a.name == x + "::" + y && a.unit == z
    requires b.name == x && b.unit == y + "::" + z
    requires Trimmed(a.name) && Trimmed(a.unit) && Trimmed(b.name) && Trimmed(b.unit)
    ensures MergeKey(a) == MergeKey(b)
    ensures Lower(Trim(a.name)) != Lower(Trim(b.name))
  {
    TrimOfTrimmed(a.name);
    TrimOfTrimmed(a.unit);
    TrimOfTrimmed(b.name);
    TrimOfTrimmed(b.unit);
    var sep := "::";
    assert Lower(sep) == sep;
    var lx, ly, lz := Lower(x), Lower(y), Lower(z);
    assert Lower(a.name) == lx + sep + ly by {
      LowerAppend(x + sep, y);
      LowerAppend(x, sep);
    }
    assert Lower(b.unit) == ly + sep + lz by {
      LowerAppend(y + sep, z);
      LowerAppend(y, sep);
    }
    ConcatAssoc(lx + sep + ly, sep, lz);
    ConcatAssoc(lx + sep, ly, sep + lz);
    ConcatAssoc(ly, sep, lz);
    assert |Lower(Trim(a.name))| == |x| + 2 + |y|;
  }

  /** `map.get(key)` on the merge map, as the position of the entry. */
  function FindKey(m: seq<InventoryItem>, key: string): (r: Option<nat>)
    ensures r.Some? ==> r.value < |m| && MergeKey(m[r.value]) == key
  {
    if m == [] then None
    else if MergeKey(m[0]) == key then Some(0)
    else match FindKey(m[1..], key)
      case None => None
      case Some(k) => Some(k + 1)
  }

  lemma {:induction false} FindKeyFacts(m: seq<InventoryItem>, key: string)
    ensures FindKey(m, key).None? <==> forall i :: 0 <= i < |m| ==> MergeKey(m[i]) != key
  {
    if m != [] && MergeKey(m[0]) != key {
      FindKeyFacts(m[1..], key);
      assert forall i :: 0 < i < |m| ==> m[i] == m[1..][i - 1];
    }
  }

  /** `a < b ? a : b` on date strings. */
  function Earlier(a: string, b: string): string
  {
    if LexLess(a, b) then a else b
  }

  /** The entry for a key after one more batch with that key joins it: amounts add up, the
      earlier date stays, the status is recomputed for it, everything else is kept. */
  function Combine(e: InventoryItem, item: InventoryItem, daysUntil: string -> int): InventoryItem
  {
    var exp := Earlier(e.expirationDate, item.expirationDate);
    e.(amount := e.amount + item.amount, expirationDate := exp, status := Freshness(daysUntil(exp)))
  }

  /** One turn of the `forEach` of `mergeDuplicates`. */
  function MergeStep(m: seq<InventoryItem>, item: InventoryItem, daysUntil: string -> int): seq<InventoryItem>
  {
    match FindKey(m, MergeKey(item))
      case Some(k) => m[k := Combine(m[k], item, daysUntil)]
      case None => m + [item]
  }

  /** The map's values after the whole `forEach`, in insertion order. `daysUntil` stands for
      the day count `getFreshnessStatus` derives from the date and today's clock. */
  function Merged(items: seq<InventoryItem>, daysUntil: string -> int): seq<InventoryItem>
  {
    if items == [] then [] else MergeStep(Merged(items[..|items| - 1], daysUntil), items[|items| - 1], daysUntil)
  }

  lemma MergedSnoc(items: seq<InventoryItem>, i: nat, daysUntil: string -> int)
    requires i < |items|
    ensures Merged(items[..i + 1], daysUntil) == MergeStep(Merged(items[..i], daysUntil), items[i], daysUntil)
  {
    assert items[..i + 1][..i] == items[..i];
  }

  // The groups of the input, by key.

  /** Position of the first batch with `key` (`|items|` when there is none). */
  function KeyFirst(items: seq<InventoryItem>, key: string): (r: nat)
    ensures r <= |items|
    ensures r < |items| ==> MergeKey(items[r]) == key
    ensures forall k :: 0 <= k < r ==> MergeKey(items[k]) != key
  {
    if items == [] then 0
    else if MergeKey(items[0]) == key then 0
    else
      var r := KeyFirst(items[1..], key);
      assert forall k :: 0 < k <= r ==> items[k] == items[1..][k - 1];
      1 + r
  }

  function KeyCount(items: seq<InventoryItem>, key: string): nat
  {
    if items == [] then 0
    else KeyCount(items[..|items| - 1], key) + (if MergeKey(items[|items| - 1]) == key then 1 else 0)
  }

  function KeySum(items: seq<InventoryItem>, key: string): real
  {
    if items == [] then 0.0
    else KeySum(items[..|items| - 1], key) + (if MergeKey(items[|items| - 1]) == key then items[|items| - 1].amount else 0.0)
  }

  /** The earliest expiry date of the group (empty for an empty group). */
  function KeyEarliest(items: seq<InventoryItem>, key: string): string
  {
    if items == [] then ""
    else
      var init, x := items[..|items| - 1], items[|items| - 1];
      if MergeKey(x) != key then KeyEarliest(init, key)
      else if KeyCount(init, key) == 0 then x.expirationDate
      else Earlier(KeyEarliest(init, key), x.expirationDate)
  }

  lemma {:induction false} KeyFirstSnoc(items: seq<InventoryItem>, x: InventoryItem, key: string)
    ensures KeyFirst(items + [x], key)
      == if KeyFirst(items, key) < |items| then KeyFirst(items, key)
         else if MergeKey(x) == key then |items| else |items| + 1
  {
    if items == [] {
      assert items + [x] == [x];
    } else {
      assert (items + [x])[0] == items[0];
      assert (items + [x])[1..] == items[1..] + [x];
      if MergeKey(items[0]) != key { KeyFirstSnoc(items[1..], x, key); }
    }
  }

  /** A group is empty exactly when no batch has the key. */
  lemma {:induction false} KeyCountZero(items: seq<InventoryItem>, key: string)
    ensures KeyCount(items, key) == 0 <==> KeyFirst(items, key) == |items|
    ensures KeyCount(items, key) == 0 ==> KeySum(items, key) == 0.0
  {
    if items != [] {
      var init, x := items[..|items| - 1], items[|items| - 1];
      assert init + [x] == items;
      KeyFirstSnoc(init, x, key);
      KeyCountZero(init, key);
    }
  }

  lemma EarlierLower(a: string, b: string)
    ensures !LexLess(a, Earlier(a, b)) && !LexLess(b, Earlier(a, b))
    ensures Earlier(a, b) == a || Earlier(a, b) == b
  {
    LexLessIrreflexive(a);
    LexLessIrreflexive(b);
    LexLessAsymmetric(a, b);
  }

  /** If `x` is not before `e`, it is not before anything earlier than `e`. */
  lemma NotBeforeEarlier(x: string, e: string, y: string)
    requires !LexLess(x, e)
    ensures !LexLess(x, Earlier(e, y))
  {
    if !LexLess(e, y) && LexLess(x, y) {
      if e == y {
      } else {
        LexLessTotal(e, y);
        LexLessTransitive(x, y, e);
      }
    }
  }

  /** No batch of a group has a date before the group's `KeyEarliest`. */
  lemma {:induction false} KeyEarliestLowest(items: seq<InventoryItem>, key: string)
    ensures forall i :: 0 <= i < |items| && MergeKey(items[i]) == key ==>
      !LexLess(items[i].expirationDate, KeyEarliest(items, key))
  {
    if items != [] {
      var init, x := items[..|items| - 1], items[|items| - 1];
      var e := KeyEarliest(items, key);
      KeyEarliestLowest(init, key);
      assert forall i :: 0 <= i < |init| ==> init[i] == items[i];
      if MergeKey(x) == key {
        if KeyCount(init, key) == 0 {
          KeyCountZero(init, key);
          LexLessIrreflexive(e);
        } else {
          var e0 := KeyEarliest(init, key);
          EarlierLower(e0, x.expirationDate);
          forall i | 0 <= i < |init| && MergeKey(init[i]) == key ensures !LexLess(init[i].expirationDate, e) {
            NotBeforeEarlier(init[i].expirationDate, e0, x.expirationDate);
          }
        }
      }
    }
  }

  /** A non-empty group's `KeyEarliest` is the date of one of its batches, at position `i`. */
  lemma {:induction false} KeyEarliestAttained(items: seq<InventoryItem>, key: string) returns (i: nat)
    requires KeyCount(items, key) > 0
    ensures i < |items| && MergeKey(items[i]) == key && items[i].expirationDate == KeyEarliest(items, key)
  {
    var init, x := items[..|items| - 1], items[|items| - 1];
    var e := KeyEarliest(items, key);
    if MergeKey(x) != key {
      i := KeyEarliestAttained(init, key);
      assert init[i] == items[i];
    } else if KeyCount(init, key) == 0 || e == x.expirationDate {
      i := |items| - 1;
    } else {
      EarlierLower(KeyEarliest(init, key), x.expirationDate);
      i := KeyEarliestAttained(init, key);
      assert init[i] == items[i];
    }
  }

  // What the merged store means.

  predicate UniqueKeys(m: seq<InventoryItem>)
  {
    forall i, j :: 0 <= i < j < |m| ==> MergeKey(m[i]) != MergeKey(m[j])
  }

  /** Every entry stands for a key some batch has. */
  predicate OnlyKeys(items: seq<InventoryItem>, m: seq<InventoryItem>)
  {
    forall k :: 0 <= k < |m| ==> KeyFirst(items, MergeKey(m[k])) < |items|
  }

  /** Every batch's key has an entry. */
  predicate CoversKeys(items: seq<InventoryItem>, m: seq<InventoryItem>)
  {
    forall i :: 0 <= i < |items| ==> FindKey(m, MergeKey(items[i])).Some?
  }

  /** The entry for a group: the id, name and unit of the group's first batch, the group's
      total amount and earliest date; a one-batch group passes through whole, and a larger
      group's status is recomputed from the date. */
  predicate GroupEntry(items: seq<InventoryItem>, e: InventoryItem, daysUntil: string -> int)
  {
    var key := MergeKey(e);
    var f := KeyFirst(items, key);
    && f < |items|
    && e.id == items[f].id && e.name == items[f].name && e.unit == items[f].unit
    && e.amount == KeySum(items, key)
    && e.expirationDate == KeyEarliest(items, key)
    && (KeyCount(items, key) == 1 ==> e == items[f])
    && (KeyCount(items, key) >= 2 ==> e.status == Freshness(daysUntil(e.expirationDate)))
  }

  predicate Groups(items: seq<InventoryItem>, m: seq<InventoryItem>, daysUntil: string -> int)
  {
    forall k :: 0 <= k < |m| ==> GroupEntry(items, m[k], daysUntil)
  }

  predicate FirstOccurrenceOrder(items: seq<InventoryItem>, m: seq<InventoryItem>)
  {
    forall i, j :: 0 <= i < j < |m| ==> KeyFirst(items, MergeKey(m[i])) < KeyFirst(items, MergeKey(m[j]))
  }

  predicate Merges(items: seq<InventoryItem>, m: seq<InventoryItem>, daysUntil: string -> int)
  {
    UniqueKeys(m) && OnlyKeys(items, m) && CoversKeys(items, m) && Groups(items, m, daysUntil)
    && FirstOccurrenceOrder(items, m)
  }

  /** A step keeps every entry's key and adds at most the new batch. */
  lemma MergeStepShape(m: seq<InventoryItem>, x: InventoryItem, daysUntil: string -> int)
    ensures var m' := MergeStep(m, x, daysUntil);
      && |m'| >= |m|
      && (forall i :: 0 <= i < |m| ==> MergeKey(m'[i]) == MergeKey(m[i]))
      && (FindKey(m, MergeKey(x)).Some? ==>
            |m'| == |m| && forall i :: 0 <= i < |m| && i != FindKey(m, MergeKey(x)).value ==> m'[i] == m[i])
      && (FindKey(m, MergeKey(x)).None? ==> m' == m + [x])
  {
  }

  /** A key with no entry yet belongs to no batch yet. */
  lemma NewKeyUnused(items: seq<InventoryItem>, x: InventoryItem, m: seq<InventoryItem>)
    requires CoversKeys(items, m)
    requires FindKey(m, MergeKey(x)).None?
    ensures KeyFirst(items, MergeKey(x)) == |items|
  {
    FindKeyFacts(m, MergeKey(x));
    forall i | 0 <= i < |items| ensures MergeKey(items[i]) != MergeKey(x) {
      var k := FindKey(m, MergeKey(items[i])).value;
      assert MergeKey(m[k]) == MergeKey(items[i]);
    }
  }

  lemma StepUnique(m: seq<InventoryItem>, x: InventoryItem, daysUntil: string -> int)
    requires UniqueKeys(m)
    ensures UniqueKeys(MergeStep(m, x, daysUntil))
  {
    MergeStepShape(m, x, daysUntil);
    FindKeyFacts(m, MergeKey(x));
  }

  lemma StepOnlyKeys(items: seq<InventoryItem>, x: InventoryItem, m: seq<InventoryItem>, daysUntil: string -> int)
    requires OnlyKeys(items, m)
    ensures OnlyKeys(items + [x], MergeStep(m, x, daysUntil))
  {
    var m' := MergeStep(m, x, daysUntil);
    MergeStepShape(m, x, daysUntil);
    forall k | 0 <= k < |m'| ensures KeyFirst(items + [x], MergeKey(m'[k])) < |items + [x]| {
      var key := MergeKey(m'[k]);
      KeyFirstSnoc(items, x, key);
      if k < |m| {
        assert key == MergeKey(m[k]);
      } else {
        assert m'[k] == x;
      }
    }
  }

  lemma StepCoversKeys(items: seq<InventoryItem>, x: InventoryItem, m: seq<InventoryItem>, daysUntil: string -> int)
    requires CoversKeys(items, m)
    ensures CoversKeys(items + [x], MergeStep(m, x, daysUntil))
  {
    var items', m' := items + [x], MergeStep(m, x, daysUntil);
    MergeStepShape(m, x, daysUntil);
    forall i | 0 <= i < |items'| ensures FindKey(m', MergeKey(items'[i])).Some? {
      var key := MergeKey(items'[i]);
      if i < |items| {
        assert items'[i] == items[i];
        var k := FindKey(m, key).value;
        FindKeyFacts(m', key);
        assert MergeKey(m'[k]) == key;
      } else if FindKey(m, MergeKey(x)).Some? {
        var k := FindKey(m, MergeKey(x)).value;
        FindKeyFacts(m', key);
        assert MergeKey(m'[k]) == key;
      } else {
        FindKeyFacts(m', key);
        assert m'[|m|] == x;
      }
    }
  }

  /** An entry whose key the new batch does not have means the same after the step. */
  lemma OtherGroupEntry(items: seq<InventoryItem>, x: InventoryItem, e: InventoryItem, daysUntil: string -> int)
    requires GroupEntry(items, e, daysUntil)
    requires MergeKey(e) != MergeKey(x)
    ensures GroupEntry(items + [x], e, daysUntil)
  {
    var items' := items + [x];
    assert items'[..|items'| - 1] == items;
    KeyFirstSnoc(items, x, MergeKey(e));
    assert items'[KeyFirst(items, MergeKey(e))] == items[KeyFirst(items, MergeKey(e))];
  }

  /** The entry a batch joins means the enlarged group after the step. */
  lemma JoinedGroupEntry(items: seq<InventoryItem>, x: InventoryItem, e: InventoryItem, daysUntil: string -> int)
    requires GroupEntry(items, e, daysUntil)
    requires MergeKey(e) == MergeKey(x)
    ensures GroupEntry(items + [x], Combine(e, x, daysUntil), daysUntil)
  {
    var items', key := items + [x], MergeKey(x);
    var f := KeyFirst(items, key);
    assert items'[..|items'| - 1] == items;
    KeyFirstSnoc(items, x, key);
    assert items'[f] == items[f];
    KeyCountZero(items, key);
    assert MergeKey(Combine(e, x, daysUntil)) == key;
  }

  /** The entry a new batch opens means its one-batch group after the step. */
  lemma NewGroupEntry(items: seq<InventoryItem>, x: InventoryItem, daysUntil: string -> int)
    requires KeyFirst(items, MergeKey(x)) == |items|
    ensures GroupEntry(items + [x], x, daysUntil)
  {
    var items', key := items + [x], MergeKey(x);
    assert items'[..|items'| - 1] == items;
    KeyFirstSnoc(items, x, key);
    KeyCountZero(items, key);
    assert items'[|items|] == x;
  }

  lemma StepGroups(items: seq<InventoryItem>, x: InventoryItem, m: seq<InventoryItem>, daysUntil: string -> int)
    requires UniqueKeys(m) && CoversKeys(items, m) && Groups(items, m, daysUntil)
    ensures Groups(items + [x], MergeStep(m, x, daysUntil), daysUntil)
  {
    var m' := MergeStep(m, x, daysUntil);
    MergeStepShape(m, x, daysUntil);
    match FindKey(m, MergeKey(x))
    case Some(k0) =>
      forall k | 0 <= k < |m'| ensures GroupEntry(items + [x], m'[k], daysUntil) {
        if k == k0 {
          JoinedGroupEntry(items, x, m[k0], daysUntil);
        } else {
          OtherGroupEntry(items, x, m[k], daysUntil);
        }
      }
    case None =>
      FindKeyFacts(m, MergeKey(x));
      NewKeyUnused(items, x, m);
      forall k | 0 <= k < |m'| ensures GroupEntry(items + [x], m'[k], daysUntil) {
        if k < |m| {
          OtherGroupEntry(items, x, m[k], daysUntil);
        } else {
          NewGroupEntry(items, x, daysUntil);
        }
      }
  }

  lemma StepOrder(items: seq<InventoryItem>, x: InventoryItem, m: seq<InventoryItem>, daysUntil: string -> int)
    requires OnlyKeys(items, m) && CoversKeys(items, m) && FirstOccurrenceOrder(items, m)
    ensures FirstOccurrenceOrder(items + [x], MergeStep(m, x, daysUntil))
  {
    var m' := MergeStep(m, x, daysUntil);
    MergeStepShape(m, x, daysUntil);
    forall i | 0 <= i < |m| ensures KeyFirst(items + [x], MergeKey(m'[i])) == KeyFirst(items, MergeKey(m[i])) < |items| {
      KeyFirstSnoc(items, x, MergeKey(m[i]));
    }
    if FindKey(m, MergeKey(x)).None? {
      NewKeyUnused(items, x, m);
      KeyFirstSnoc(items, x, MergeKey(x));
      assert KeyFirst(items + [x], MergeKey(m'[|m|])) == |items|;
    }
  }

  lemma {:induction false} MergedUnique(items: seq<InventoryItem>, daysUntil: string -> int)
    ensures UniqueKeys(Merged(items, daysUntil))
  {
    if items != [] {
      var init, x := items[..|items| - 1], items[|items| - 1];
      MergedUnique(init, daysUntil);
      StepUnique(Merged(init, daysUntil), x, daysUntil);
    }
  }

  lemma {:induction false} MergedOnlyKeys(items: seq<InventoryItem>, daysUntil: string -> int)
    ensures OnlyKeys(items, Merged(items, daysUntil))
  {
    if items != [] {
      var init, x := items[..|items| - 1], items[|items| - 1];
      assert init + [x] == items;
      MergedOnlyKeys(init, daysUntil);
      StepOnlyKeys(init, x, Merged(init, daysUntil), daysUntil);
    }
  }

  lemma {:induction false} MergedCoversKeys(items: seq<InventoryItem>, daysUntil: string -> int)
    ensures CoversKeys(items, Merged(items, daysUntil))
  {
    if items != [] {
      var init, x := items[..|items| - 1], items[|items| - 1];
      assert init + [x] == items;
      MergedCoversKeys(init, daysUntil);
      StepCoversKeys(init, x, Merged(init, daysUntil), daysUntil);
    }
  }

  /** The step of `MergedGroups`: the groups of all but the last batch extend to all. */
  lemma MergedGroupsStep(items: seq<InventoryItem>, init: seq<InventoryItem>, x: InventoryItem, daysUntil: string -> int)
    requires items == init + [x]
    requires UniqueKeys(Merged(init, daysUntil)) && CoversKeys(init, Merged(init, daysUntil))
    requires Groups(init, Merged(init, daysUntil), daysUntil)
    ensures Groups(items, Merged(items, daysUntil), daysUntil)
  {
    assert items[..|items| - 1] == init;
    StepGroups(init, x, Merged(init, daysUntil), daysUntil);
  }

  lemma {:induction false} MergedGroups(items: seq<InventoryItem>, daysUntil: string -> int)
    ensures Groups(items, Merged(items, daysUntil), daysUntil)
  {
    if items != [] {
      var init, x := items[..|items| - 1], items[|items| - 1];
      assert items == init + [x];
      MergedUnique(init, daysUntil);
      MergedCoversKeys(init, daysUntil);
      MergedGroups(init, daysUntil);
      MergedGroupsStep(items, init, x, daysUntil);
    }
  }

  lemma {:induction false} MergedOrder(items: seq<InventoryItem>, daysUntil: string -> int)
    ensures FirstOccurrenceOrder(items, Merged(items, daysUntil))
  {
    if items != [] {
      var init, x := items[..|items| - 1], items[|items| - 1];
      assert init + [x] == items;
      MergedOnlyKeys(init, daysUntil);
      MergedCoversKeys(init, daysUntil);
      MergedOrder(init, daysUntil);
      StepOrder(init, x, Merged(init, daysUntil), daysUntil);
    }
  }

  /** `mergeDuplicates` leaves one entry per key; each entry carries the id, name and unit of
      its group's first batch, the group's total amount and earliest date, a one-batch group
      is passed through whole and a larger one gets the freshness of its date; the entries
      come in the order their keys first occur. */
  lemma MergedCorrect(items: seq<InventoryItem>, daysUntil: string -> int)
    ensures Merges(items, Merged(items, daysUntil), daysUntil)
  {
    MergedUnique(items, daysUntil);
    MergedOnlyKeys(items, daysUntil);
    MergedCoversKeys(items, daysUntil);
    MergedGroups(items, daysUntil);
    MergedOrder(items, daysUntil);
  }

  /** With unique keys, the sum over a key is the amount of its one entry, or nothing. */
  lemma FindKeySnoc(m: seq<InventoryItem>, x: InventoryItem, key: string)
    ensures FindKey(m + [x], key)
      == if FindKey(m, key).Some? then FindKey(m, key) else if MergeKey(x) == key then Some(|m|) else None
  {
    if m == [] {
      assert m + [x] == [x];
    } else {
      assert (m + [x])[0] == m[0];
      assert (m + [x])[1..] == m[1..] + [x];
      FindKeySnoc(m[1..], x, key);
    }
  }

  /** With unique keys, the sum over a key is the amount of its one entry, or nothing. */
  lemma {:induction false} KeySumOfUnique(m: seq<InventoryItem>, key: string)
    requires UniqueKeys(m)
    ensures FindKey(m, key).Some? ==> KeySum(m, key) == m[FindKey(m, key).value].amount
    ensures FindKey(m, key).None? ==> KeySum(m, key) == 0.0
  {
    if m != [] {
      var init, x := m[..|m| - 1], m[|m| - 1];
      assert init + [x] == m;
      assert forall i :: 0 <= i < |init| ==> init[i] == m[i];
      assert UniqueKeys(init);
      KeySumOfUnique(init, key);
      FindKeySnoc(init, x, key);
      if MergeKey(x) == key {
        assert forall i :: 0 <= i < |init| ==> MergeKey(init[i]) != key;
        FindKeyFacts(init, key);
        KeyFirstSnoc(init, x, key);
      }
    }
  }

  /** Merging conserves the quantity of every key. */
  lemma MergeConserves(items: seq<InventoryItem>, daysUntil: string -> int, key: string)
    ensures KeySum(Merged(items, daysUntil), key) == KeySum(items, key)
  {
    var m := Merged(items, daysUntil);
    MergedCorrect(items, daysUntil);
    KeySumOfUnique(m, key);
    match FindKey(m, key)
    case Some(k) =>
      assert GroupEntry(items, m[k], daysUntil);
    case None =>
      FindKeyFacts(m, key);
      forall i | 0 <= i < |items| ensures MergeKey(items[i]) != key {
        var k := FindKey(m, MergeKey(items[i])).value;
        assert MergeKey(m[k]) == MergeKey(items[i]);
      }
      KeyCountZero(items, key);
  }

  /** A store whose keys are already unique is left as it is. */
  lemma {:induction false} MergeUnique(items: seq<InventoryItem>, daysUntil: string -> int)
    requires UniqueKeys(items)
    ensures Merged(items, daysUntil) == items
  {
    if items != [] {
      var init, x := items[..|items| - 1], items[|items| - 1];
      assert UniqueKeys(init);
      MergeUnique(init, daysUntil);
      FindKeyFacts(init, MergeKey(x));
      assert init + [x] == items;
    }
  }

  /** Merging twice merges nothing more. */
  lemma MergeIdempotent(items: seq<InventoryItem>, daysUntil: string -> int)
    ensures Merged(Merged(items, daysUntil), daysUntil) == Merged(items, daysUntil)
  {
    MergedCorrect(items, daysUntil);
    MergeUnique(Merged(items, daysUntil), daysUntil);
  }

  // The other store operations.

  /** `findIndex(i => i.id === id)`, `None` standing for `-1`. */
  function FindItem(inv: seq<InventoryItem>, id: string): (r: Option<nat>)
    ensures r.Some? ==> r.value < |inv| && inv[r.value].id == id
  {
    if inv == [] then None
    else if inv[0].id == id then Some(0)
    else match FindItem(inv[1..], id)
      case None => None
      case Some(k) => Some(k + 1)
  }

  lemma {:induction false} FindItemFacts(inv: seq<InventoryItem>, id: string)
    ensures FindItem(inv, id).Some? ==> forall k :: 0 <= k < FindItem(inv, id).value ==> inv[k].id != id
    ensures FindItem(inv, id).None? <==> forall k :: 0 <= k < |inv| ==> inv[k].id != id
  {
    if inv != [] && inv[0].id != id {
      FindItemFacts(inv[1..], id);
      assert forall k :: 0 < k < |inv| ==> inv[k] == inv[1..][k - 1];
    }
  }

  /** The lookup depends on the ids alone. */
  lemma {:induction false} FindItemSameIds(a: seq<InventoryItem>, b: seq<InventoryItem>, id: string)
    requires |a| == |b| && forall k :: 0 <= k < |a| ==> a[k].id == b[k].id
    ensures FindItem(a, id) == FindItem(b, id)
  {
    if a != [] && a[0].id != id {
      FindItemSameIds(a[1..], b[1..], id);
    }
  }

  /** `updateItem`'s effect on the store: the updates are laid over the first entry with the
      id; without one the store is left alone. Unlike the inventory view's edit, nothing is
      removed, whatever the new amount. */
  function UpdateInStore(inv: seq<InventoryItem>, id: string, u: ItemUpdate): seq<InventoryItem>
  {
    match FindItem(inv, id)
      case Some(k) => inv[k := Overlay(inv[k], u)]
      case None => inv
  }

  lemma UpdateInStoreSpec(inv: seq<InventoryItem>, id: string, u: ItemUpdate)
    ensures var r := UpdateInStore(inv, id, u);
      && |r| == |inv|
      && ((exists k :: 0 <= k < |inv| && inv[k].id == id) ==>
           exists k :: 0 <= k < |inv| && inv[k].id == id &&
             (forall i :: 0 <= i < k ==> inv[i].id != id) &&
             r[k] == Overlay(inv[k], u) && forall i :: 0 <= i < |inv| && i != k ==> r[i] == inv[i])
      && ((forall k :: 0 <= k < |inv| ==> inv[k].id != id) ==> r == inv)
  {
    FindItemFacts(inv, id);
  }

  /** `deleteItem`: every entry with the id goes, the rest stay in order. */
  function DeleteById(inv: seq<InventoryItem>, id: string): seq<InventoryItem>
  {
    Filter(inv, (x: InventoryItem) => x.id != id)
  }

  /** Deleting from two runs of batches deletes from each and keeps their order. */
  lemma DeleteByIdAppend(a: seq<InventoryItem>, b: seq<InventoryItem>, id: string)
    ensures DeleteById(a + b, id) == DeleteById(a, id) + DeleteById(b, id)
  {
    FilterAppend(a, b, (x: InventoryItem) => x.id != id);
  }

  lemma DeleteByIdSpec(inv: seq<InventoryItem>, id: string)
    ensures forall x :: x in DeleteById(inv, id) <==> x in inv && x.id != id
    ensures FindItem(DeleteById(inv, id), id).None?
    ensures (forall k :: 0 <= k < |inv| ==> inv[k].id != id) ==> DeleteById(inv, id) == inv
  {
    var p := (x: InventoryItem) => x.id != id;
    var r := DeleteById(inv, id);
    FilterFacts(inv, p);
    FindItemFacts(r, id);
    forall k | 0 <= k < |r| ensures r[k].id != id {
      assert p(r[k]);
    }
    if forall k :: 0 <= k < |inv| ==> inv[k].id != id {
      FilterAllPass(inv, p);
    }
  }

  /** One turn of `batchUpdate`'s loop: the first entry with the item's id is replaced. */
  function ReplaceById(inv: seq<InventoryItem>, x: InventoryItem): seq<InventoryItem>
  {
    match FindItem(inv, x.id)
      case Some(k) => inv[k := x]
      case None => inv
  }

  function ReplaceAll(inv: seq<InventoryItem>, ups: seq<InventoryItem>): seq<InventoryItem>
  {
    if ups == [] then inv else ReplaceById(ReplaceAll(inv, ups[..|ups| - 1]), ups[|ups| - 1])
  }

  /** The last item of the batch with the id, if any. */
  function LastUpdate(ups: seq<InventoryItem>, id: string): (r: Option<InventoryItem>)
    ensures r.Some? ==> r.value.id == id && r.value in ups
  {
    if ups == [] then None
    else if ups[|ups| - 1].id == id then Some(ups[|ups| - 1])
    else LastUpdate(ups[..|ups| - 1], id)
  }

  /** What the replacements leave at position `k`. */
  function ReplacedAt(inv: seq<InventoryItem>, ups: seq<InventoryItem>, k: nat): InventoryItem
    requires k < |inv|
  {
    var id := inv[k].id;
    if FindItem(inv, id) == Some(k) && LastUpdate(ups, id).Some? then LastUpdate(ups, id).value else inv[k]
  }

  /** The replacements keep every position and its id: the first entry of each id the batch
      carries ends up as the batch's last item with that id, every other entry is unchanged,
      and items with ids the store lacks are ignored. */
  lemma {:induction false} ReplaceAllSpec(inv: seq<InventoryItem>, ups: seq<InventoryItem>)
    ensures |ReplaceAll(inv, ups)| == |inv|
    ensures forall k :: 0 <= k < |inv| ==> ReplaceAll(inv, ups)[k] == ReplacedAt(inv, ups, k)
  {
    if ups != [] {
      var init, x := ups[..|ups| - 1], ups[|ups| - 1];
      var r0 := ReplaceAll(inv, init);
      ReplaceAllSpec(inv, init);
      FindItemSameIds(r0, inv, x.id);
      FindItemFacts(inv, x.id);
      forall k | 0 <= k < |inv| ensures ReplaceAll(inv, ups)[k] == ReplacedAt(inv, ups, k) {
        assert r0[k] == ReplacedAt(inv, init, k);
      }
    }
  }

  /** `batchUpdate`: the replacements, then every entry whose amount is not positive goes. */
  function BatchUpdated(inv: seq<InventoryItem>, ups: seq<InventoryItem>): seq<InventoryItem>
  {
    Filter(ReplaceAll(inv, ups), Pantry.InStock)
  }

  /** After a batch update exactly the replaced entries with a positive amount remain, in order,
      whether or not the batch touched them. */
  lemma BatchUpdatedSpec(inv: seq<InventoryItem>, ups: seq<InventoryItem>)
    ensures forall x :: x in BatchUpdated(inv, ups) <==>
      x.amount > 0.0 && exists k :: 0 <= k < |inv| && x == ReplacedAt(inv, ups, k)
    ensures forall i :: 0 <= i < |BatchUpdated(inv, ups)| ==> BatchUpdated(inv, ups)[i].amount > 0.0
  {
    var m := ReplaceAll(inv, ups);
    ReplaceAllSpec(inv, ups);
    FilterFacts(m, Pantry.InStock);
    forall x ensures x in BatchUpdated(inv, ups) <==> x.amount > 0.0 && exists k :: 0 <= k < |inv| && x == ReplacedAt(inv, ups, k) {
      if x in m {
        var k :| 0 <= k < |m| && m[k] == x;
      }
      if exists k :: 0 <= k < |inv| && x == ReplacedAt(inv, ups, k) {
        var k :| 0 <= k < |inv| && x == ReplacedAt(inv, ups, k);
        assert m[k] == x;
      }
    }
  }

  /** The body of `mergeDuplicates`' `forEach`: `item` joins the entry of its key in `m`,
      or becomes a new entry. */
  method MergeInto(m: seq<InventoryItem>, item: InventoryItem, daysUntil: string -> int) returns (r: seq<InventoryItem>)
    ensures r == MergeStep(m, item, daysUntil)
  {
    var key := Lower(Trim(item.name)) + "::" + Lower(Trim(item.unit));
    var found := FindKey(m, key);
    if found.Some? {
      var existing := m[found.value];
      var newAmount := existing.amount + item.amount;
      var newExp := if LexLess(existing.expirationDate, item.expirationDate) then existing.expirationDate
                    else item.expirationDate;
      r := m[found.value := existing.(amount := newAmount, expirationDate := newExp, status := Freshness(daysUntil(newExp)))];
    } else {
      r := m + [item];
    }
  }

  /** The batches the store starts with. */
  function InitialInventory(): seq<InventoryItem>
  {
    [ InventoryItem("1", "Chicken Breast", 500.0, "g", "2023-11-20", Expiring),
      InventoryItem("2", "Pasta", 500.0, "g", "2024-05-01", Normal),
      InventoryItem("3", "Eggs", 4.0, "pcs", "2023-10-01", Expired),
      InventoryItem("4", "Rice", 2000.0, "g", "2024-12-01", Normal) ]
  }

  /** `inventoryService` over its store `localInventory`. */
  class InventoryStore {
    var items: seq<InventoryItem>

    constructor ()
      ensures items == InitialInventory()
    {
      items := InitialInventory();
    }

    /** `getInventory`: a copy of the store. */
    method GetInventory() returns (r: seq<InventoryItem>)
      ensures r == items
    {
      r := items;
    }

    /** `addItems`: the batch is appended in order. */
    method AddItems(batch: seq<InventoryItem>)
      modifies this
      ensures items == old(items) + batch
    {
      items := items + batch;
    }

    /** `updateItem`: the updated entry is returned, or nothing when the id is unknown. */
    method UpdateItem(id: string, updates: ItemUpdate) returns (r: Option<InventoryItem>)
      modifies this
      ensures items == UpdateInStore(old(items), id, updates)
      ensures r.Some? <==> FindItem(old(items), id).Some?
      ensures r.Some? ==> r.value == items[FindItem(old(items), id).value]
      ensures r.Some? && updates.id.None? ==> r.value.id == id
    {
      var idx := FindItem(items, id);
      if idx.Some? {
        items := items[idx.value := Overlay(items[idx.value], updates)];
        r := Some(items[idx.value]);
      } else {
        r := None;
      }
    }

    /** `deleteItem`. */
    method DeleteItem(id: string)
      modifies this
      ensures items == DeleteById(old(items), id)
    {
      items := DeleteById(items, id);
    }

    /** `mergeDuplicates`, with `daysUntil` for the day count of a date. */
    method MergeDuplicates(daysUntil: string -> int)
      modifies this
      ensures items == Merged(old(items), daysUntil)
    {
      var src := items;
      var m: seq<InventoryItem> := [];
      var i := 0;
      while i < |src|
        invariant 0 <= i <= |src|
        invariant m == Merged(src[..i], daysUntil)
      {
        m := MergeInto(m, src[i], daysUntil);
        MergedSnoc(src, i, daysUntil);
        i := i + 1;
      }
      assert src[..i] == src;
      items := m;
    }

    /** `batchUpdate`. */
    method BatchUpdate(updatedItems: seq<InventoryItem>)
      modifies this
      ensures items == BatchUpdated(old(items), updatedItems)
    {
      var j := 0;
      while j < |updatedItems|
        invariant 0 <= j <= |updatedItems|
        invariant items == ReplaceAll(old(items), updatedItems[..j])
      {
        var newItem := updatedItems[j];
        var idx := FindItem(items, newItem.id);
        if idx.Some? {
          items := items[idx.value := newItem];
        }
        assert updatedItems[..j + 1][..j] == updatedItems[..j];
        j := j + 1;
      }
      assert updatedItems[..j] == updatedItems;
      items := Filter(items, Pantry.InStock);
    }
  }
}
