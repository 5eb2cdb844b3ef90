/**
  RFC 6902 on unordered JSON values, written independently of dict order, and
  the proof that the ordered engine refines it: the outcome of a patch, error
  included, depends only on the JSON values of the document and of the patch.
 */
module JsonPatchSpec {
  import opened Basics
  import opened Decimal
  import opened Json
  import opened JsonPatch

  // ----- The reference semantics -----

  function VChild(v: Value, token: string): Outcome<Value> {
    match v
    case VObj(members) => if token in members then Ok(members[token]) else Err(PathNotFound)
    case VArr(items) =>
      var i :- Index(token, |items|);
      Ok(items[i])
    case _ => Err(NonContainer)
  }

  function VLookup(v: Value, tokens: seq<string>): Outcome<Value> {
    if tokens == [] then Ok(v)
    else
      var child :- VChild(v, tokens[0]);
      VLookup(child, tokens[1..])
  }

  function VEditLeaf(parent: Value, token: string, edit: LeafEdit<Value>): Outcome<Value> {
    match parent
    case VObj(members) => (
      match edit
      case Insert(v) => Ok(VObj(members[token := v]))
      case Assign(v) => Ok(VObj(members[token := v]))
      case Delete => if token in members then Ok(VObj(members - {token})) else Err(PathNotFound)
    )
    case VArr(items) => (
      match edit
      case Insert(v) =>
        if token == "-" then Ok(VArr(items + [v]))
        else
          var i :- Index(token, |items| + 1);
          Ok(VArr(items[..i] + [v] + items[i..]))
      case Delete =>
        var i :- Index(token, |items|);
        Ok(VArr(items[..i] + items[i + 1..]))
      case Assign(v) =>
        var i :- Index(token, |items|);
        Ok(VArr(items[i := v]))
    )
    case _ => Err(NonContainer)
  }

  function VPut(v: Value, token: string, child: Value): Value
    requires VChild(v, token).Ok?
  {
    match v
    case VObj(members) => VObj(members[token := child])
    case VArr(items) => VArr(items[ParseNat(token) := child])
  }

  function VEdit(v: Value, tokens: seq<string>, edit: LeafEdit<Value>): Outcome<Value>
    requires tokens != []
  {
    if |tokens| == 1 then VEditLeaf(v, tokens[0], edit)
    else
      var child :- VChild(v, tokens[0]);
      var child' :- VEdit(child, tokens[1..], edit);
      Ok(VPut(v, tokens[0], child'))
  }

  function VAdd(v: Value, ptr: string, value: Value): Outcome<Value> {
    var tokens :- Split(ptr);
    if tokens == [] then Ok(value) else VEdit(v, tokens, Insert(value))
  }

  function VRemove(v: Value, ptr: string): Outcome<Value> {
    var tokens :- Split(ptr);
    if tokens == [] then Err(RemoveRoot) else VEdit(v, tokens, Delete)
  }

  function VReplace(v: Value, ptr: string, value: Value): Outcome<Value> {
    var tokens :- Split(ptr);
    if tokens == [] then Ok(value)
    else
      var _ :- VLookup(v, tokens);
      VEdit(v, tokens, Assign(value))
  }

  function VGet(v: Value, ptr: string): Outcome<Value> {
    var tokens :- Split(ptr);
    VLookup(v, tokens)
  }

  function VStringMember(op: map<string, Value>, key: string, missing: PatchError): Outcome<string> {
    if key !in op then Err(missing)
    else match op[key]
         case VStr(s) => Ok(s)
         case _ => Err(InvalidPointer)
  }

  function VValueMember(op: map<string, Value>): Outcome<Value> {
    if "value" in op then Ok(op["value"]) else Err(MissingMember)
  }

  function VAddOp(v: Value, op: map<string, Value>): Outcome<Value> {
    var value :- VValueMember(op);
    var path :- VStringMember(op, "path", InvalidOp);
    VAdd(v, path, value)
  }

  function VRemoveOp(v: Value, op: map<string, Value>): Outcome<Value> {
    var path :- VStringMember(op, "path", InvalidOp);
    VRemove(v, path)
  }

  function VReplaceOp(v: Value, op: map<string, Value>): Outcome<Value> {
    var value :- VValueMember(op);
    var path :- VStringMember(op, "path", InvalidOp);
    VReplace(v, path, value)
  }

  function VMoveOp(v: Value, op: map<string, Value>): Outcome<Value> {
    var from :- VStringMember(op, "from", MissingMember);
    var value :- VGet(v, from);
    var removed :- VRemove(v, from);
    var path :- VStringMember(op, "path", InvalidOp);
    VAdd(removed, path, value)
  }

  function VCopyOp(v: Value, op: map<string, Value>): Outcome<Value> {
    var from :- VStringMember(op, "from", MissingMember);
    var value :- VGet(v, from);
    var path :- VStringMember(op, "path", InvalidOp);
    VAdd(v, path, value)
  }

  function VTestOp(v: Value, op: map<string, Value>): Outcome<Value> {
    var expected :- VValueMember(op);
    var path :- VStringMember(op, "path", InvalidOp);
    var actual :- VGet(v, path);
    if Unify(actual) == Unify(expected) then Ok(v) else Err(TestFailed)
  }

  function VApplyNamed(v: Value, op: map<string, Value>, name: string): Outcome<Value> {
    match name
    case "add" => VAddOp(v, op)
    case "remove" => VRemoveOp(v, op)
    case "replace" => VReplaceOp(v, op)
    case "move" => VMoveOp(v, op)
    case "copy" => VCopyOp(v, op)
    case "test" => VTestOp(v, op)
    case _ => Err(UnsupportedOp)
  }

  function VApplyOp(v: Value, raw: Value): Outcome<Value> {
    if !raw.VObj? || "op" !in raw.members || "path" !in raw.members then Err(InvalidOp)
    else match raw.members["op"]
         case VStr(name) => VApplyNamed(v, raw.members, name)
         case _ => Err(UnsupportedOp)
  }

  function VApplyOps(v: Value, ops: seq<Value>): Outcome<Value>
    decreases |ops|
  {
    if ops == [] then Ok(v)
    else
      var next :- VApplyOp(v, ops[0]);
      VApplyOps(next, ops[1..])
  }

  function VApply(v: Value, patch: Value): Outcome<Value> {
    if patch.VArr? then VApplyOps(v, patch.items) else Err(PatchMustBeList)
  }

  // ----- Refinement -----

  function AbsOutcome(r: Outcome<Json>): Outcome<Value> {
    match r
    case Ok(j) => Ok(Abs(j))
    case Err(e) => Err(e)
  }

  function AbsEdit(edit: LeafEdit<Json>): LeafEdit<Value> {
    match edit
    case Insert(v) => Insert(Abs(v))
    case Delete => Delete
    case Assign(v) => Assign(Abs(v))
  }

  predicate WellFormedEdit(edit: LeafEdit<Json>) {
    edit.Delete? || WellFormed(edit.value)
  }

  ghost predicate WellFormedOutcome(r: Outcome<Json>) {
    r.Ok? ==> WellFormed(r.value)
  }

  lemma {:induction false} ChildRefines(doc: Json, token: string)
    requires WellFormed(doc)
    ensures AbsOutcome(Child(doc, token)) == VChild(Abs(doc), token)
    ensures WellFormedOutcome(Child(doc, token))
  {
    if doc.Obj? {
      AbsGet(doc.fields, token);
    }
  }

  lemma {:induction false} LookupRefines(doc: Json, tokens: seq<string>)
    requires WellFormed(doc)
    ensures AbsOutcome(Lookup(doc, tokens)) == VLookup(Abs(doc), tokens)
    ensures WellFormedOutcome(Lookup(doc, tokens))
    decreases |tokens|
  {
    if tokens != [] {
      ChildRefines(doc, tokens[0]);
      if Child(doc, tokens[0]).Ok? {
        LookupRefines(Child(doc, tokens[0]).value, tokens[1..]);
      }
    }
  }

  lemma {:induction false} AbsItemsIs(items: seq<Json>, vs: seq<Value>)
    requires |items| == |vs| && forall i | 0 <= i < |items| :: vs[i] == Abs(items[i])
    ensures AbsItems(items) == vs
  {}

  lemma {:induction false} EditMemberRefines(fields: seq<Field>, token: string, edit: LeafEdit<Json>)
    requires WellFormed(Obj(fields)) && WellFormedEdit(edit)
    ensures AbsOutcome(EditLeaf(Obj(fields), token, edit)) == VEditLeaf(Abs(Obj(fields)), token, AbsEdit(edit))
    ensures WellFormedOutcome(EditLeaf(Obj(fields), token, edit))
  {
    AbsGet(fields, token);
    if edit.Delete? {
      AbsDel(fields, token);
      DelKeepsWellFormed(fields, token);
    } else {
      AbsSet(fields, token, edit.value);
      SetKeepsWellFormed(fields, token, edit.value);
    }
  }

  lemma {:induction false} InsertItemRefines(items: seq<Json>, token: string, v: Json)
    ensures AbsOutcome(EditLeaf(Arr(items), token, Insert(v))) == VEditLeaf(Abs(Arr(items)), token, Insert(Abs(v)))
  {
    if token == "-" {
      AbsItemsIs(items + [v], AbsItems(items) + [Abs(v)]);
    } else if Index(token, |items| + 1).Ok? {
      var i := Index(token, |items| + 1).value;
      AbsItemsIs(items[..i] + [v] + items[i..], AbsItems(items)[..i] + [Abs(v)] + AbsItems(items)[i..]);
    }
  }

  lemma {:induction false} DeleteItemRefines(items: seq<Json>, token: string)
    ensures AbsOutcome(EditLeaf(Arr(items), token, Delete)) == VEditLeaf(Abs(Arr(items)), token, Delete)
  {
    if Index(token, |items|).Ok? {
      var i := Index(token, |items|).value;
      AbsItemsIs(items[..i] + items[i + 1..], AbsItems(items)[..i] + AbsItems(items)[i + 1..]);
    }
  }

  lemma {:induction false} AssignItemRefines(items: seq<Json>, token: string, v: Json)
    ensures AbsOutcome(EditLeaf(Arr(items), token, Assign(v))) == VEditLeaf(Abs(Arr(items)), token, Assign(Abs(v)))
  {
    if Index(token, |items|).Ok? {
      var i := Index(token, |items|).value;
      AbsItemsIs(items[i := v], AbsItems(items)[i := Abs(v)]);
    }
  }

  lemma {:induction false} EditItemRefines(items: seq<Json>, token: string, edit: LeafEdit<Json>)
    requires WellFormed(Arr(items)) && WellFormedEdit(edit)
    ensures AbsOutcome(EditLeaf(Arr(items), token, edit)) == VEditLeaf(Abs(Arr(items)), token, AbsEdit(edit))
    ensures WellFormedOutcome(EditLeaf(Arr(items), token, edit))
  {
    match edit
    case Insert(v) => InsertItemRefines(items, token, v);
    case Delete => DeleteItemRefines(items, token);
    case Assign(v) => AssignItemRefines(items, token, v);
  }

  lemma {:induction false} EditLeafRefines(parent: Json, token: string, edit: LeafEdit<Json>)
    requires WellFormed(parent) && WellFormedEdit(edit)
    ensures AbsOutcome(EditLeaf(parent, token, edit)) == VEditLeaf(Abs(parent), token, AbsEdit(edit))
    ensures WellFormedOutcome(EditLeaf(parent, token, edit))
  {
    match parent
    case Obj(fields) => EditMemberRefines(fields, token, edit);
    case Arr(items) => EditItemRefines(items, token, edit);
    case _ =>
  }

  lemma {:induction false} PutRefines(doc: Json, token: string, child: Json)
    requires WellFormed(doc) && WellFormed(child) && Child(doc, token).Ok?
    ensures VChild(Abs(doc), token).Ok?
    ensures Abs(PutChild(doc, token, child)) == VPut(Abs(doc), token, Abs(child))
    ensures WellFormed(PutChild(doc, token, child))
  {
    ChildRefines(doc, token);
    if doc.Obj? {
      AbsSet(doc.fields, token, child);
      SetKeepsWellFormed(doc.fields, token, child);
    } else {
      AbsItemsIs(PutChild(doc, token, child).items, VPut(Abs(doc), token, Abs(child)).items);
    }
  }

  lemma {:induction false} EditRefines(doc: Json, tokens: seq<string>, edit: LeafEdit<Json>)
    requires tokens != [] && WellFormed(doc) && WellFormedEdit(edit)
    ensures AbsOutcome(Edit(doc, tokens, edit)) == VEdit(Abs(doc), tokens, AbsEdit(edit))
    ensures WellFormedOutcome(Edit(doc, tokens, edit))
    decreases |tokens|
  {
    if |tokens| == 1 {
      EditLeafRefines(doc, tokens[0], edit);
    } else {
      ChildRefines(doc, tokens[0]);
      if Child(doc, tokens[0]).Ok? {
        var child := Child(doc, tokens[0]).value;
        EditRefines(child, tokens[1..], edit);
        var r := Edit(child, tokens[1..], edit);
        if r.Ok? {
          PutRefines(doc, tokens[0], r.value);
        }
      }
    }
  }

  lemma {:induction false} MembersRefine(op: seq<Field>, key: string, missing: PatchError)
    requires WellFormed(Obj(op))
    ensures StringMember(op, key, missing) == VStringMember(AbsFields(op), key, missing)
    ensures AbsOutcome(ValueMember(op)) == VValueMember(AbsFields(op)) && WellFormedOutcome(ValueMember(op))
  {
    AbsGet(op, key);
    AbsGet(op, "value");
  }

  lemma {:induction false} GetRefines(doc: Json, ptr: string)
    requires WellFormed(doc)
    ensures AbsOutcome(Get(doc, ptr)) == VGet(Abs(doc), ptr) && WellFormedOutcome(Get(doc, ptr))
  {
    if Split(ptr).Ok? {
      LookupRefines(doc, Split(ptr).value);
    }
  }

  lemma {:induction false} AddRefines(doc: Json, ptr: string, value: Json)
    requires WellFormed(doc) && WellFormed(value)
    ensures AbsOutcome(Add(doc, ptr, value)) == VAdd(Abs(doc), ptr, Abs(value)) && WellFormedOutcome(Add(doc, ptr, value))
  {
    if Split(ptr).Ok? && Split(ptr).value != [] {
      EditRefines(doc, Split(ptr).value, Insert(value));
    }
  }

  lemma {:induction false} RemoveRefines(doc: Json, ptr: string)
    requires WellFormed(doc)
    ensures AbsOutcome(Remove(doc, ptr)) == VRemove(Abs(doc), ptr) && WellFormedOutcome(Remove(doc, ptr))
  {
    if Split(ptr).Ok? && Split(ptr).value != [] {
      EditRefines(doc, Split(ptr).value, Delete);
    }
  }

  lemma {:induction false} ReplaceRefines(doc: Json, ptr: string, value: Json)
    requires WellFormed(doc) && WellFormed(value)
    ensures AbsOutcome(Replace(doc, ptr, value)) == VReplace(Abs(doc), ptr, Abs(value))
    ensures WellFormedOutcome(Replace(doc, ptr, value))
  {
    GetRefines(doc, ptr);
    if Split(ptr).Ok? && Split(ptr).value != [] {
      EditRefines(doc, Split(ptr).value, Assign(value));
    }
  }

  lemma {:induction false} AddOpRefines(doc: Json, op: seq<Field>)
    requires WellFormed(doc) && WellFormed(Obj(op))
    ensures AbsOutcome(AddOp(doc, op)) == VAddOp(Abs(doc), AbsFields(op)) && WellFormedOutcome(AddOp(doc, op))
  {
    MembersRefine(op, "path", InvalidOp);
    var path, value := StringMember(op, "path", InvalidOp), ValueMember(op);
    if path.Ok? && value.Ok? {
      AddRefines(doc, path.value, value.value);
    }
  }

  lemma {:induction false} RemoveOpRefines(doc: Json, op: seq<Field>)
    requires WellFormed(doc) && WellFormed(Obj(op))
    ensures AbsOutcome(RemoveOp(doc, op)) == VRemoveOp(Abs(doc), AbsFields(op)) && WellFormedOutcome(RemoveOp(doc, op))
  {
    MembersRefine(op, "path", InvalidOp);
    var path := StringMember(op, "path", InvalidOp);
    if path.Ok? {
      RemoveRefines(doc, path.value);
    }
  }

  lemma {:induction false} ReplaceOpRefines(doc: Json, op: seq<Field>)
    requires WellFormed(doc) && WellFormed(Obj(op))
    ensures AbsOutcome(ReplaceOp(doc, op)) == VReplaceOp(Abs(doc), AbsFields(op)) && WellFormedOutcome(ReplaceOp(doc, op))
  {
    MembersRefine(op, "path", InvalidOp);
    var path, value := StringMember(op, "path", InvalidOp), ValueMember(op);
    if path.Ok? && value.Ok? {
      ReplaceRefines(doc, path.value, value.value);
    }
  }

  lemma {:induction false} TestOpRefines(doc: Json, op: seq<Field>)
    requires WellFormed(doc) && WellFormed(Obj(op))
    ensures AbsOutcome(TestOp(doc, op)) == VTestOp(Abs(doc), AbsFields(op)) && WellFormedOutcome(TestOp(doc, op))
  {
    MembersRefine(op, "path", InvalidOp);
    var path, value := StringMember(op, "path", InvalidOp), ValueMember(op);
    if path.Ok? && value.Ok? {
      GetRefines(doc, path.value);
    }
  }

  lemma {:induction false} MoveOpRefines(doc: Json, op: seq<Field>)
    requires WellFormed(doc) && WellFormed(Obj(op))
    ensures AbsOutcome(MoveOp(doc, op)) == VMoveOp(Abs(doc), AbsFields(op)) && WellFormedOutcome(MoveOp(doc, op))
  {
    MembersRefine(op, "path", InvalidOp);
    MembersRefine(op, "from", MissingMember);
    var from, path := StringMember(op, "from", MissingMember), StringMember(op, "path", InvalidOp);
    if from.Ok? {
      GetRefines(doc, from.value);
      RemoveRefines(doc, from.value);
      var v, removed := Get(doc, from.value), Remove(doc, from.value);
      if v.Ok? && removed.Ok? && path.Ok? {
        AddRefines(removed.value, path.value, v.value);
      }
    }
  }

  lemma {:induction false} CopyOpRefines(doc: Json, op: seq<Field>)
    requires WellFormed(doc) && WellFormed(Obj(op))
    ensures AbsOutcome(CopyOp(doc, op)) == VCopyOp(Abs(doc), AbsFields(op)) && WellFormedOutcome(CopyOp(doc, op))
  {
    MembersRefine(op, "path", InvalidOp);
    MembersRefine(op, "from", MissingMember);
    var from, path := StringMember(op, "from", MissingMember), StringMember(op, "path", InvalidOp);
    if from.Ok? {
      GetRefines(doc, from.value);
      var v := Get(doc, from.value);
      if v.Ok? && path.Ok? {
        AddRefines(doc, path.value, v.value);
      }
    }
  }

  lemma {:induction false} EditOpRefines(doc: Json, op: seq<Field>, name: string)
    requires WellFormed(doc) && WellFormed(Obj(op)) && (name == "add" || name == "remove" || name == "replace")
    ensures AbsOutcome(ApplyNamed(doc, op, name)) == VApplyNamed(Abs(doc), AbsFields(op), name)
    ensures WellFormedOutcome(ApplyNamed(doc, op, name))
  {
    AddOpRefines(doc, op);
    RemoveOpRefines(doc, op);
    ReplaceOpRefines(doc, op);
  }

  lemma {:induction false} MovingOpRefines(doc: Json, op: seq<Field>, name: string)
    requires WellFormed(doc) && WellFormed(Obj(op)) && (name == "move" || name == "copy")
    ensures AbsOutcome(ApplyNamed(doc, op, name)) == VApplyNamed(Abs(doc), AbsFields(op), name)
    ensures WellFormedOutcome(ApplyNamed(doc, op, name))
  {
    MoveOpRefines(doc, op);
    CopyOpRefines(doc, op);
  }

  lemma {:induction false} OtherOpRefines(doc: Json, op: seq<Field>, name: string)
    requires WellFormed(doc) && WellFormed(Obj(op))
    requires name != "add" && name != "remove" && name != "replace" && name != "move" && name != "copy"
    ensures AbsOutcome(ApplyNamed(doc, op, name)) == VApplyNamed(Abs(doc), AbsFields(op), name)
    ensures WellFormedOutcome(ApplyNamed(doc, op, name))
  {
    TestOpRefines(doc, op);
  }

  /** Each operation refines the reference operation of its name. */
  lemma {:induction false} NamedOpRefines(doc: Json, op: seq<Field>, name: string)
    requires WellFormed(doc) && WellFormed(Obj(op))
    ensures AbsOutcome(ApplyNamed(doc, op, name)) == VApplyNamed(Abs(doc), AbsFields(op), name)
    ensures WellFormedOutcome(ApplyNamed(doc, op, name))
  {
    if name == "add" || name == "remove" || name == "replace" {
      EditOpRefines(doc, op, name);
    } else if name == "move" || name == "copy" {
      MovingOpRefines(doc, op, name);
    } else {
      OtherOpRefines(doc, op, name);
    }
  }

  /** An operation that is an object with the members `op` and `path`. */
  lemma {:induction false} RawOpRefines(doc: Json, op: seq<Field>)
    requires WellFormed(doc) && WellFormed(Obj(op)) && HasKey(op, "op") && HasKey(op, "path")
    ensures AbsOutcome(ApplyOp(doc, Obj(op))) == VApplyOp(Abs(doc), VObj(AbsFields(op)))
    ensures WellFormedOutcome(ApplyOp(doc, Obj(op)))
  {
    AbsGet(op, "op");
    AbsGet(op, "path");
    if GetField(op, "op").Str? {
      NamedOpRefines(doc, op, GetField(op, "op").s);
    }
  }

  lemma {:induction false} OpRefines(doc: Json, raw: Json)
    requires WellFormed(doc) && WellFormed(raw)
    ensures AbsOutcome(ApplyOp(doc, raw)) == VApplyOp(Abs(doc), Abs(raw))
    ensures WellFormedOutcome(ApplyOp(doc, raw))
  {
    if raw.Obj? {
      AbsGet(raw.fields, "op");
      AbsGet(raw.fields, "path");
      if HasKey(raw.fields, "op") && HasKey(raw.fields, "path") {
        RawOpRefines(doc, raw.fields);
      }
    }
  }

  lemma {:induction false} OpsRefine(doc: Json, ops: seq<Json>)
    requires WellFormed(doc) && forall i | 0 <= i < |ops| :: WellFormed(ops[i])
    ensures AbsOutcome(ApplyOps(doc, ops)) == VApplyOps(Abs(doc), AbsItems(ops))
    ensures WellFormedOutcome(ApplyOps(doc, ops))
    decreases |ops|
  {
    if ops != [] {
      OpRefines(doc, ops[0]);
      if ApplyOp(doc, ops[0]).Ok? {
        OpsRefine(ApplyOp(doc, ops[0]).value, ops[1..]);
      }
      assert AbsItems(ops)[1..] == AbsItems(ops[1..]);
    }
  }

  /**
    The ordered engine computes the reference semantics: documents and patches
    that are equal as JSON give equal results or the same error, and a
    well-formed document stays well-formed.
   */
  lemma {:induction false} ApplyRefines(doc: Json, patch: Json)
    requires WellFormed(doc) && WellFormed(patch)
    ensures AbsOutcome(Apply(doc, patch)) == VApply(Abs(doc), Abs(patch))
    ensures WellFormedOutcome(Apply(doc, patch))
  {
    if patch.Arr? {
      OpsRefine(doc, patch.items);
    }
  }
}
