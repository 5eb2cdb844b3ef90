/**
  The JSON Pointer (RFC 6901) and JSON Patch (RFC 6902) engine of
  src/sampling/plan_scaler.py, on ordered documents.
 */
module JsonPatch {
  import opened Basics
  import opened Decimal
  import opened Json

  datatype PatchError =
    | InvalidPointer | PathNotFound | InvalidListIndex | NonContainer
    | RemoveRoot | PatchMustBeList | InvalidOp | MissingMember | TestFailed | UnsupportedOp

  type Outcome<T> = Result<T, PatchError>

  // ----- Pointers -----

  /** `s.replace(c1 + c2, sub)`: left to right, without overlaps. */
  function ReplacePair(s: string, c1: char, c2: char, sub: char): string {
    if |s| < 2 then s
    else if s[0] == c1 && s[1] == c2 then [sub] + ReplacePair(s[2..], c1, c2, sub)
    else [s[0]] + ReplacePair(s[1..], c1, c2, sub)
  }

  function Unescape(token: string): string {
    ReplacePair(ReplacePair(token, '~', '1', '/'), '~', '0', '~')
  }

  /** `s.split("/")`. */
  function SplitSlash(s: string): (r: seq<string>)
    ensures |r| > 0
  {
    if s == "" then [""]
    else
      var rest := SplitSlash(s[1..]);
      if s[0] == '/' then [""] + rest else [[s[0]] + rest[0]] + rest[1..]
  }

  function UnescapeAll(parts: seq<string>): (r: seq<string>)
    ensures |r| == |parts|
  {
    if parts == [] then [] else [Unescape(parts[0])] + UnescapeAll(parts[1..])
  }

  /** `_json_pointer_split`. */
  function Split(ptr: string): Outcome<seq<string>> {
    if ptr == "" then Ok([])
    else if ptr[0] != '/' then Err(InvalidPointer)
    else Ok(UnescapeAll(SplitSlash(ptr)[1..]))
  }

  /** Section 3 of RFC 6901: `~` is written `~0` and `/` is written `~1`. */
  function Escape(token: string): string {
    if token == "" then ""
    else (if token[0] == '~' then "~0" else if token[0] == '/' then "~1" else [token[0]]) + Escape(token[1..])
  }

  function Print(tokens: seq<string>): string {
    if tokens == [] then "" else "/" + Escape(tokens[0]) + Print(tokens[1..])
  }

  // ----- Walking -----

  /** The list index a token denotes, if it is one; `-` never is. */
  function Index(token: string, bound: nat): Outcome<nat> {
    if !IsDigits(token) then Err(InvalidListIndex)
    else if ParseNat(token) >= bound then Err(InvalidListIndex)
    else Ok(ParseNat(token))
  }

  /** One step of a pointer walk. */
  function Child(doc: Json, token: string): Outcome<Json> {
    match doc
    case Obj(fields) => if HasKey(fields, token) then Ok(GetField(fields, token)) else Err(PathNotFound)
    case Arr(items) =>
      var i :- Index(token, |items|);
      Ok(items[i])
    case _ => Err(NonContainer)
  }

  function Lookup(doc: Json, tokens: seq<string>): Outcome<Json> {
    if tokens == [] then Ok(doc)
    else
      var child :- Child(doc, tokens[0]);
      Lookup(child, tokens[1..])
  }

  /** `_json_pointer_get`. */
  method PointerGet(doc: Json, ptr: string) returns (r: Outcome<Json>)
    ensures r == Get(doc, ptr)
  {
    var tokens :- Split(ptr);
    var cur, i := doc, 0;
    while i < |tokens|
      invariant 0 <= i <= |tokens|
      invariant Lookup(doc, tokens) == Lookup(cur, tokens[i..])
    {
      cur :- Child(cur, tokens[i]);
      i := i + 1;
    }
    return Ok(cur);
  }

  // ----- Editing -----

  /** What happens at the container that holds the last token. */
  datatype LeafEdit<+T> = Insert(value: T) | Delete | Assign(value: T)

  function EditLeaf(parent: Json, token: string, edit: LeafEdit<Json>): Outcome<Json> {
    match parent
    case Obj(fields) => (
      match edit
      case Insert(v) => Ok(Obj(SetField(fields, token, v)))
      case Assign(v) => Ok(Obj(SetField(fields, token, v)))
      case Delete => if HasKey(fields, token) then Ok(Obj(DelField(fields, token))) else Err(PathNotFound)
    )
    case Arr(items) => (
      match edit
      case Insert(v) =>
        if token == "-" then Ok(Arr(items + [v]))
        else
          var i :- Index(token, |items| + 1);
          Ok(Arr(items[..i] + [v] + items[i..]))
      case Delete =>
        var i :- Index(token, |items|);
        Ok(Arr(items[..i] + items[i + 1..]))
      case Assign(v) =>
        var i :- Index(token, |items|);
        Ok(Arr(items[i := v]))
    )
    case _ => Err(NonContainer)
  }

  /** The document in which the child reached by `token` has been changed in place. */
  function PutChild(doc: Json, token: string, child: Json): Json
    requires Child(doc, token).Ok?
  {
    match doc
    case Obj(fields) => Obj(SetField(fields, token, child))
    case Arr(items) => Arr(items[ParseNat(token) := child])
  }

  /** Walk to the parent of the last token and edit there. */
  function Edit(doc: Json, tokens: seq<string>, edit: LeafEdit<Json>): Outcome<Json>
    requires tokens != []
  {
    if |tokens| == 1 then EditLeaf(doc, tokens[0], edit)
    else
      var child :- Child(doc, tokens[0]);
      var child' :- Edit(child, tokens[1..], edit);
      Ok(PutChild(doc, tokens[0], child'))
  }

  /** `_json_pointer_add`. */
  function Add(doc: Json, ptr: string, value: Json): Outcome<Json> {
    var tokens :- Split(ptr);
    if tokens == [] then Ok(value) else Edit(doc, tokens, Insert(value))
  }

  /** `_json_pointer_remove`. */
  function Remove(doc: Json, ptr: string): Outcome<Json> {
    var tokens :- Split(ptr);
    if tokens == [] then Err(RemoveRoot) else Edit(doc, tokens, Delete)
  }

  /** `_json_pointer_replace`: the path must exist. */
  function Replace(doc: Json, ptr: string, value: Json): Outcome<Json> {
    var tokens :- Split(ptr);
    if tokens == [] then Ok(value)
    else
      var _ :- Lookup(doc, tokens);
      Edit(doc, tokens, Assign(value))
  }

  function Get(doc: Json, ptr: string): Outcome<Json> {
    var tokens :- Split(ptr);
    Lookup(doc, tokens)
  }

  // ----- Patches -----

  /** The string or value stored under a member of a raw operation. */
  function StringMember(op: seq<Field>, key: string, missing: PatchError): Outcome<string> {
    if !HasKey(op, key) then Err(missing)
    else match GetField(op, key)
         case Str(s) => Ok(s)
         case _ => Err(InvalidPointer)
  }

  function ValueMember(op: seq<Field>): Outcome<Json> {
    if HasKey(op, "value") then Ok(GetField(op, "value")) else Err(MissingMember)
  }

  function AddOp(doc: Json, op: seq<Field>): Outcome<Json> {
    var v :- ValueMember(op);
    var path :- StringMember(op, "path", InvalidOp);
    Add(doc, path, v)
  }

  function RemoveOp(doc: Json, op: seq<Field>): Outcome<Json> {
    var path :- StringMember(op, "path", InvalidOp);
    Remove(doc, path)
  }

  function ReplaceOp(doc: Json, op: seq<Field>): Outcome<Json> {
    var v :- ValueMember(op);
    var path :- StringMember(op, "path", InvalidOp);
    Replace(doc, path, v)
  }

  function MoveOp(doc: Json, op: seq<Field>): Outcome<Json> {
    var from :- StringMember(op, "from", MissingMember);
    var v :- Get(doc, from);
    var removed :- Remove(doc, from);
    var path :- StringMember(op, "path", InvalidOp);
    Add(removed, path, v)
  }

  function CopyOp(doc: Json, op: seq<Field>): Outcome<Json> {
    var from :- StringMember(op, "from", MissingMember);
    var v :- Get(doc, from);
    var path :- StringMember(op, "path", InvalidOp);
    Add(doc, path, v)
  }

  function TestOp(doc: Json, op: seq<Field>): Outcome<Json> {
    var expected :- ValueMember(op);
    var path :- StringMember(op, "path", InvalidOp);
    var actual :- Get(doc, path);
    if PyEqual(actual, expected) then Ok(doc) else Err(TestFailed)
  }

  /** The operation of this name. */
  function ApplyNamed(doc: Json, op: seq<Field>, name: string): Outcome<Json> {
    match name
    case "add" => AddOp(doc, op)
    case "remove" => RemoveOp(doc, op)
    case "replace" => ReplaceOp(doc, op)
    case "move" => MoveOp(doc, op)
    case "copy" => CopyOp(doc, op)
    case "test" => TestOp(doc, op)
    case _ => Err(UnsupportedOp)
  }

  /** One iteration of the loop in `_apply_json_patch`. */
  function ApplyOp(doc: Json, raw: Json): Outcome<Json> {
    if !raw.Obj? || !HasKey(raw.fields, "op") || !HasKey(raw.fields, "path") then Err(InvalidOp)
    else match GetField(raw.fields, "op")
         case Str(name) => ApplyNamed(doc, raw.fields, name)
         case _ => Err(UnsupportedOp)
  }

  function ApplyOps(doc: Json, ops: seq<Json>): Outcome<Json>
    decreases |ops|
  {
    if ops == [] then Ok(doc)
    else
      var next :- ApplyOp(doc, ops[0]);
      ApplyOps(next, ops[1..])
  }

  function Apply(doc: Json, patch: Json): Outcome<Json> {
    if patch.Arr? then ApplyOps(doc, patch.items) else Err(PatchMustBeList)
  }

  /** `_apply_json_patch`: the loop over the operations, stopping at the first error. */
  method ApplyJsonPatch(doc: Json, patch: Json) returns (r: Outcome<Json>)
    ensures r == Apply(doc, patch)
  {
    if !patch.Arr? {
      return Err(PatchMustBeList);
    }
    var cur, i := doc, 0;
    while i < |patch.items|
      invariant 0 <= i <= |patch.items|
      invariant ApplyOps(doc, patch.items) == ApplyOps(cur, patch.items[i..])
    {
      cur :- ApplyOp(cur, patch.items[i]);
      i := i + 1;
    }
    return Ok(cur);
  }
}
