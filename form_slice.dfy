/**
 * The record store (store/formSlice.ts): an ordered list of records, initially
 * empty, changed in place by three reducers — an upsert keyed by `id`, an
 * unconditional append, and a delete that keeps every record with another `id`.
 */
module FormSlice {
  import opened Records

  /** True when some record in `s` has identifier `id`. */
  predicate HasId(s: seq<FormDataItem>, id: int)
  {
    exists i :: 0 <= i < |s| && s[i].id == id
  }

  /** No two records in `s` share an identifier. */
  predicate UniqueIds(s: seq<FormDataItem>)
  {
    forall i, j :: 0 <= i < j < |s| ==> s[i].id != s[j].id
  }

  /** `Array.prototype.findIndex` on `formData.id === id`: the first matching index, or -1. */
  function FindIndex(s: seq<FormDataItem>, id: int): (k: int)
    ensures -1 <= k < |s|
    ensures k == -1 <==> !HasId(s, id)
    ensures k != -1 ==> s[k].id == id && forall j :: 0 <= j < k ==> s[j].id != id
  {
    if s == [] then -1
    else if s[0].id == id then 0
    else
      var k := FindIndex(s[1..], id);
      assert forall j :: 1 <= j < |s| ==> s[j] == s[1..][j - 1];
      if k == -1 then -1 else k + 1
  }

  /** The list after `updateFormData(x)`: replace at the first index with `x.id`, or append. */
  function Upserted(s: seq<FormDataItem>, x: FormDataItem): (r: seq<FormDataItem>)
    ensures HasId(s, x.id) ==>
      var k := FindIndex(s, x.id);
      && |r| == |s|
      && r[k] == x
      && (forall i :: 0 <= i < |s| && i != k ==> r[i] == s[i])
    ensures !HasId(s, x.id) ==> |r| == |s| + 1 && r[..|s|] == s && r[|s|] == x
    ensures forall y :: y in r ==> y in s || y == x
  {
    var k := FindIndex(s, x.id);
    if k != -1 then s[k := x] else s + [x]
  }

  /** The list after `deleteFormData(id)`: the records whose identifier differs, in order. */
  function Without(s: seq<FormDataItem>, id: int): (r: seq<FormDataItem>)
    ensures |r| <= |s|
    ensures !HasId(r, id)
    ensures forall y :: y in r ==> y in s
    ensures !HasId(s, id) ==> r == s
  {
    if s == [] then []
    else
      var rest := Without(s[1..], id);
      assert !HasId(s, id) ==> s[0].id != id && !HasId(s[1..], id) by {
        if HasId(s[1..], id) {
          var i :| 0 <= i < |s[1..]| && s[1..][i].id == id;
          assert s[i + 1].id == id;
        }
      }
      assert s == [s[0]] + s[1..];
      if s[0].id != id then
        assert !HasId([s[0]] + rest, id) by {
          forall i | 0 <= i < |[s[0]] + rest| ensures ([s[0]] + rest)[i].id != id {
            if i > 0 { assert ([s[0]] + rest)[i] == rest[i - 1]; }
          }
        }
        [s[0]] + rest
      else
        rest
  }

  /** Every record with another identifier survives deletion as often as it occurred. */
  lemma {:induction false} WithoutKeepsOthers(s: seq<FormDataItem>, id: int, y: FormDataItem)
    requires y.id != id
    ensures multiset(Without(s, id))[y] == multiset(s)[y]
  {
    if s != [] {
      WithoutKeepsOthers(s[1..], id, y);
      assert s == [s[0]] + s[1..];
      assert multiset(s) == multiset{s[0]} + multiset(s[1..]);
      if s[0].id != id {
        assert Without(s, id) == [s[0]] + Without(s[1..], id);
        assert multiset(Without(s, id)) == multiset{s[0]} + multiset(Without(s[1..], id));
      }
    }
  }

  class FormState {
    /** `state.formDataArray` */
    var formDataArray: seq<FormDataItem>

    /** The slice's `initialState`: no records. */
    constructor ()
      ensures formDataArray == []
    {
      formDataArray := [];
    }

    /** The `updateFormData` reducer. */
    method UpdateFormData(payload: FormDataItem)
      modifies this
      ensures formDataArray == Upserted(old(formDataArray), payload)
    {
      var existing := FindIndex(formDataArray, payload.id);
      if existing != -1 {
        formDataArray := formDataArray[existing := payload];
      } else {
        formDataArray := formDataArray + [payload];
      }
    }

    /** The `saveFormData` reducer: append without looking at the identifier. */
    method SaveFormData(payload: FormDataItem)
      modifies this
      ensures formDataArray == old(formDataArray) + [payload]
    {
      formDataArray := formDataArray + [payload];
    }

    /** The `deleteFormData` reducer. */
    method DeleteFormData(idToDelete: int)
      modifies this
      ensures formDataArray == Without(old(formDataArray), idToDelete)
    {
      formDataArray := Without(formDataArray, idToDelete);
    }
  }

  /** A record with a later duplicate identifier is the only one an upsert replaces. */
  lemma UpsertReplacesFirstOnly(s: seq<FormDataItem>, x: FormDataItem, i: int, j: int)
    requires 0 <= i < j < |s| && s[i].id == x.id && s[j].id == x.id
    ensures Upserted(s, x)[j] == s[j]
  {
    assert HasId(s, x.id);
  }

  /** Upsert keeps identifiers unique. */
  lemma UpsertKeepsUniqueIds(s: seq<FormDataItem>, x: FormDataItem)
    requires UniqueIds(s)
    ensures UniqueIds(Upserted(s, x))
  {
  }

  /** Repeating the same upsert changes nothing. */
  lemma UpsertIdempotent(s: seq<FormDataItem>, x: FormDataItem)
    ensures Upserted(Upserted(s, x), x) == Upserted(s, x)
  {
  }

  /** Upsert never grows the list by more than one, and grows it only for a new identifier. */
  lemma UpsertGrowth(s: seq<FormDataItem>, x: FormDataItem)
    ensures |Upserted(s, x)| == if HasId(s, x.id) then |s| else |s| + 1
  {
  }

  /** Appending performs no identifier check: appending a present identifier duplicates it. */
  lemma SaveMayDuplicateIds(s: seq<FormDataItem>, x: FormDataItem)
    requires HasId(s, x.id)
    ensures !UniqueIds(s + [x])
  {
    var k := FindIndex(s, x.id);
    assert (s + [x])[k].id == (s + [x])[|s|].id;
  }

  /** Deleting keeps the survivors in their relative order: it distributes over concatenation. */
  lemma {:induction false} WithoutAppend(a: seq<FormDataItem>, b: seq<FormDataItem>, id: int)
    ensures Without(a + b, id) == Without(a, id) + Without(b, id)
  {
    if a == [] {
      assert a + b == b;
    } else {
      assert (a + b)[1..] == a[1..] + b;
      WithoutAppend(a[1..], b, id);
    }
  }

  /** Deleting the same identifier twice is deleting it once. */
  lemma WithoutIdempotent(s: seq<FormDataItem>, id: int)
    ensures Without(Without(s, id), id) == Without(s, id)
  {
  }

  /** A list with one record in front has unique ids when the rest does and lacks that record's id. */
  lemma UniqueIdsCons(x: FormDataItem, t: seq<FormDataItem>)
    ensures UniqueIds([x] + t) <==> !HasId(t, x.id) && UniqueIds(t)
  {
    var s := [x] + t;
    assert forall i :: 0 <= i < |t| ==> s[i + 1] == t[i];
    if UniqueIds(s) {
      forall i | 0 <= i < |t| ensures t[i].id != x.id {
        assert s[0].id != s[i + 1].id;
      }
    }
  }

  /** Delete keeps identifiers unique. */
  lemma {:induction false} WithoutKeepsUniqueIds(s: seq<FormDataItem>, id: int)
    requires UniqueIds(s)
    ensures UniqueIds(Without(s, id))
  {
    if s != [] {
      assert s == [s[0]] + s[1..];
      UniqueIdsCons(s[0], s[1..]);
      WithoutKeepsUniqueIds(s[1..], id);
      var rest := Without(s[1..], id);
      if s[0].id != id {
        forall j | 0 <= j < |rest| ensures rest[j].id != s[0].id {
          assert rest[j] in s[1..];
          var m :| 0 <= m < |s[1..]| && s[1..][m] == rest[j];
          assert s[1..][m].id != s[0].id;
        }
        UniqueIdsCons(s[0], rest);
      }
    }
  }
}
