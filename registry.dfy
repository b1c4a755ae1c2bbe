/** The field registry behind `useFormFields`: an ordered list of fields that
    the hook replaces wholesale on every add, remove and value update. */
module Registry {
  import opened Fields

  /** `{...newField, id}` */
  function WithId(newField: NewField, id: string): (f: Field)
    ensures f.id == id
    ensures f.fieldType == newField.fieldType && f.fieldLabel == newField.fieldLabel
    ensures f.value == newField.value && f.options == newField.options
  {
    Field(id, newField.fieldType, newField.fieldLabel, newField.value, newField.options)
  }

  /** `fields.filter((field) => field.id !== id)` */
  function Removed(fields: seq<Field>, id: string): (r: seq<Field>)
    ensures |r| <= |fields|
  {
    if fields == [] then []
    else if fields[0].id != id then [fields[0]] + Removed(fields[1..], id)
    else Removed(fields[1..], id)
  }

  /** `fields.map((field) => (field.id === id ? { ...field, value } : field))` */
  function Updated(fields: seq<Field>, id: string, value: Value): (r: seq<Field>)
    ensures |r| == |fields|
    ensures forall i :: 0 <= i < |fields| ==>
      && r[i].id == fields[i].id && r[i].fieldType == fields[i].fieldType
      && r[i].fieldLabel == fields[i].fieldLabel && r[i].options == fields[i].options
      && r[i].value == (if fields[i].id == id then value else fields[i].value)
  {
    if fields == [] then []
    else [if fields[0].id == id then fields[0].(value := value) else fields[0]]
         + Updated(fields[1..], id, value)
  }

  /** `removeField` keeps exactly the records whose id differs. */
  lemma {:induction false} RemovedMembers(fields: seq<Field>, id: string)
    ensures forall f :: f in Removed(fields, id) <==> f in fields && f.id != id
  {
    if fields != [] {
      RemovedMembers(fields[1..], id);
      assert fields == [fields[0]] + fields[1..];
    }
  }

  /** Removing an id that no field carries changes nothing. */
  lemma {:induction false} RemovedAbsent(fields: seq<Field>, id: string)
    requires IdAbsent(fields, id)
    ensures Removed(fields, id) == fields
  {
    if fields != [] {
      RemovedAbsent(fields[1..], id);
    }
  }

  /** `removeField(id)` twice is `removeField(id)` once. */
  lemma RemovedIdempotent(fields: seq<Field>, id: string)
    ensures Removed(Removed(fields, id), id) == Removed(fields, id)
  {
    var r := Removed(fields, id);
    RemovedMembers(fields, id);
    forall i | 0 <= i < |r| ensures r[i].id != id {
      assert r[i] in r;
    }
    RemovedAbsent(r, id);
  }

  /** With distinct ids, removing the id of the field at index `k` drops
      exactly that field and keeps the others in their order. */
  lemma {:induction false} RemovedAtIndex(fields: seq<Field>, id: string, k: nat)
    requires DistinctIds(fields)
    requires k < |fields| && fields[k].id == id
    ensures Removed(fields, id) == fields[..k] + fields[k + 1..]
  {
    var tail := fields[1..];
    if k == 0 {
      assert IdAbsent(tail, id) by {
        forall i | 0 <= i < |tail| ensures tail[i].id != id {
          assert tail[i] == fields[i + 1];
        }
      }
      RemovedAbsent(tail, id);
    } else {
      assert DistinctIds(tail) by {
        forall i, j | 0 <= i < j < |tail| ensures tail[i].id != tail[j].id {
          assert tail[i] == fields[i + 1] && tail[j] == fields[j + 1];
        }
      }
      assert fields[0].id != id;
      assert Removed(fields, id) == [fields[0]] + Removed(tail, id);
      RemovedAtIndex(tail, id, k - 1);
      assert tail[..k - 1] + tail[k..] == fields[1..k] + fields[k + 1..];
      assert fields[..k] == [fields[0]] + fields[1..k];
    }
  }

  /** With distinct ids, `removeField` shortens the list by at most one, and
      by exactly one when the id is present. */
  lemma RemovedLength(fields: seq<Field>, id: string)
    requires DistinctIds(fields)
    ensures IdAbsent(fields, id) ==> |Removed(fields, id)| == |fields|
    ensures !IdAbsent(fields, id) ==> |Removed(fields, id)| == |fields| - 1
  {
    if IdAbsent(fields, id) {
      RemovedAbsent(fields, id);
    } else {
      var k :| 0 <= k < |fields| && fields[k].id == id;
      RemovedAtIndex(fields, id, k);
    }
  }

  /** Filtering cannot introduce an id the list did not carry. */
  lemma {:induction false} RemovedKeepsAbsent(fields: seq<Field>, id: string, other: string)
    requires IdAbsent(fields, other)
    ensures IdAbsent(Removed(fields, id), other)
  {
    if fields != [] {
      RemovedKeepsAbsent(fields[1..], id, other);
    }
  }

  /** A record whose id the rest does not carry can head a list of distinct ids. */
  lemma ConsKeepsDistinct(f: Field, rest: seq<Field>)
    requires DistinctIds(rest) && IdAbsent(rest, f.id)
    ensures DistinctIds([f] + rest)
  {
    var r := [f] + rest;
    forall i, j | 0 <= i < j < |r| ensures r[i].id != r[j].id {
      assert r[j] == rest[j - 1];
      if i > 0 { assert r[i] == rest[i - 1]; }
    }
  }

  /** Filtering keeps ids pairwise distinct. */
  lemma {:induction false} RemovedKeepsDistinct(fields: seq<Field>, id: string)
    requires DistinctIds(fields)
    ensures DistinctIds(Removed(fields, id))
  {
    if fields != [] {
      var tail := fields[1..];
      assert DistinctIds(tail) by {
        forall i, j | 0 <= i < j < |tail| ensures tail[i].id != tail[j].id {
          assert tail[i] == fields[i + 1] && tail[j] == fields[j + 1];
        }
      }
      RemovedKeepsDistinct(tail, id);
      if fields[0].id != id {
        assert IdAbsent(tail, fields[0].id) by {
          forall j | 0 <= j < |tail| ensures tail[j].id != fields[0].id {
            assert tail[j] == fields[j + 1];
          }
        }
        RemovedKeepsAbsent(tail, id, fields[0].id);
        ConsKeepsDistinct(fields[0], Removed(tail, id));
      }
    }
  }

  /** Updating a value never touches ids, so they stay distinct. */
  lemma UpdatedKeepsDistinct(fields: seq<Field>, id: string, value: Value)
    requires DistinctIds(fields)
    ensures DistinctIds(Updated(fields, id, value))
  {
  }

  /** `updateFieldValue` on an absent id leaves the list identical. */
  lemma UpdatedAbsent(fields: seq<Field>, id: string, value: Value)
    requires IdAbsent(fields, id)
    ensures Updated(fields, id, value) == fields
  {
    var r := Updated(fields, id, value);
    assert forall i :: 0 <= i < |fields| ==> r[i] == fields[i];
  }

  /** Appending a field with a fresh id keeps ids pairwise distinct. */
  lemma AppendFreshKeepsDistinct(fields: seq<Field>, f: Field)
    requires DistinctIds(fields) && IdAbsent(fields, f.id)
    ensures DistinctIds(fields + [f])
  {
  }

  /** The registry state of one form session. `Issued` records every id ever
      handed out, so that an id is never reused, even after its field is
      removed. */
  class FieldRegistry {
    var fields: seq<Field>
    ghost var Issued: set<string>

    ghost predicate Valid()
      reads this
    {
      && DistinctIds(fields)
      && forall i :: 0 <= i < |fields| ==> fields[i].id in Issued
    }

    /** `useState<Field[]>([])` */
    constructor ()
      ensures Valid() && fields == [] && Issued == {}
    {
      fields := [];
      Issued := {};
    }

    /** `addField`: the fresh id is supplied by the caller. */
    method AddField(newField: NewField, id: string)
      requires Valid() && id !in Issued
      modifies this
      ensures Valid() && Issued == old(Issued) + {id}
      ensures fields == old(fields) + [WithId(newField, id)]
    {
      var field := WithId(newField, id);
      fields := fields + [field];
      Issued := Issued + {id};
    }

    /** `removeField` */
    method RemoveField(id: string)
      requires Valid()
      modifies this`fields
      ensures Valid()
      ensures fields == Removed(old(fields), id)
    {
      RemovedKeepsDistinct(fields, id);
      RemovedMembers(fields, id);
      fields := Removed(fields, id);
      assert forall i :: 0 <= i < |fields| ==> fields[i] in fields;
    }

    /** `updateFieldValue`: writes always succeed, whatever the value. */
    method UpdateFieldValue(id: string, value: Value)
      requires Valid()
      modifies this`fields
      ensures Valid()
      ensures fields == Updated(old(fields), id, value)
    {
      fields := Updated(fields, id, value);
    }
  }
}
