/** Algebraic laws of the patch operations, on all documents and pointers. */
module JsonPatchLaws {
  import opened Basics
  import opened Json
  import opened JsonPatch
  import opened JsonPatchSpec

  // ----- Pointers: splitting inverts printing (sections 3 and 4 of RFC 6901) -----

  /** The text after the first of the two replacements of `Unescape`. */
  function EscapeTilde(token: string): string {
    if token == "" then ""
    else (if token[0] == '~' then "~0" else [token[0]]) + EscapeTilde(token[1..])
  }

  lemma {:induction false} ReplaceSkips(c: char, s: string, c1: char, c2: char, sub: char)
    requires c != c1
    ensures ReplacePair([c] + s, c1, c2, sub) == [c] + ReplacePair(s, c1, c2, sub)
  {
    assert ([c] + s)[1..] == s;
  }

  lemma {:induction false} ReplaceHits(s: string, c1: char, c2: char, sub: char)
    ensures ReplacePair([c1, c2] + s, c1, c2, sub) == [sub] + ReplacePair(s, c1, c2, sub)
  {
    assert ([c1, c2] + s)[2..] == s;
  }

  lemma {:induction false} ReplaceMisses(d: char, s: string, c1: char, c2: char, sub: char)
    requires d != c2 && d != c1
    ensures ReplacePair([c1, d] + s, c1, c2, sub) == [c1, d] + ReplacePair(s, c1, c2, sub)
  {
    var t := [c1, d] + s;
    assert t[1..] == [d] + s && t[0] == c1 && t[1] == d;
    assert ReplacePair(t, c1, c2, sub) == [c1] + ReplacePair([d] + s, c1, c2, sub);
    ReplaceSkips(d, s, c1, c2, sub);
    assert [c1] + ([d] + ReplacePair(s, c1, c2, sub)) == [c1, d] + ReplacePair(s, c1, c2, sub);
  }

  lemma {:induction false} NoSlash(token: string)
    ensures '/' !in Escape(token)
  {
    if token != "" {
      NoSlash(token[1..]);
    }
  }

  lemma {:induction false} ReplaceSlash(token: string)
    ensures ReplacePair(Escape(token), '~', '1', '/') == EscapeTilde(token)
  {
    if token != "" {
      var rest := Escape(token[1..]);
      ReplaceSlash(token[1..]);
      if token[0] == '~' {
        assert Escape(token) == ['~', '0'] + rest;
        ReplaceMisses('0', rest, '~', '1', '/');
      } else if token[0] == '/' {
        assert Escape(token) == ['~', '1'] + rest;
        ReplaceHits(rest, '~', '1', '/');
      } else {
        assert Escape(token) == [token[0]] + rest;
        ReplaceSkips(token[0], rest, '~', '1', '/');
      }
    }
  }

  lemma {:induction false} ReplaceTilde(token: string)
    ensures ReplacePair(EscapeTilde(token), '~', '0', '~') == token
  {
    if token != "" {
      ReplaceTilde(token[1..]);
      var e := EscapeTilde(token);
      if token[0] == '~' {
        assert e[2..] == EscapeTilde(token[1..]);
      } else {
        assert e[1..] == EscapeTilde(token[1..]);
      }
    }
  }

  lemma {:induction false} UnescapeInvertsEscape(token: string)
    ensures Unescape(Escape(token)) == token
  {
    ReplaceSlash(token);
    ReplaceTilde(token);
  }

  /** Splitting at slashes leaves a slash-free prefix attached to the first part. */
  lemma {:induction false} SplitPrefix(p: string, s: string)
    requires '/' !in p
    ensures SplitSlash(p + s) == [p + SplitSlash(s)[0]] + SplitSlash(s)[1..]
  {
    if p == "" {
      assert p + s == s && p + SplitSlash(s)[0] == SplitSlash(s)[0];
    } else {
      SplitPrefix(p[1..], s);
      assert (p + s)[1..] == p[1..] + s;
      assert [p[0]] + (p[1..] + SplitSlash(s)[0]) == p + SplitSlash(s)[0];
    }
  }

  lemma {:induction false} SplitPrinted(tokens: seq<string>)
    ensures SplitSlash(Print(tokens))[0] == ""
    ensures UnescapeAll(SplitSlash(Print(tokens))[1..]) == tokens
  {
    if tokens != [] {
      var rest := Print(tokens[1..]);
      var e := Escape(tokens[0]);
      SplitPrinted(tokens[1..]);
      NoSlash(tokens[0]);
      UnescapeInvertsEscape(tokens[0]);
      SplitPrefix(e, rest);
      assert Print(tokens) == "/" + (e + rest);
      assert Print(tokens)[1..] == e + rest;
      var parts := SplitSlash(e + rest);
      assert SplitSlash(Print(tokens)) == [""] + parts;
      assert ([""] + parts)[1..] == parts;
      assert e + "" == e;
      assert parts[1..] == SplitSlash(rest)[1..];
    }
  }

  /** Every token list, with `~` and `/` in any token, survives printing and splitting. */
  lemma {:induction false} SplitInvertsPrint(tokens: seq<string>)
    ensures Split(Print(tokens)) == Ok(tokens)
  {
    SplitPrinted(tokens);
  }

  // ----- Operations -----

  /** Whether adding at `token` would create a member or element rather than overwrite one. */
  predicate FreshAt(parent: Value, token: string) {
    match parent
    case VObj(members) => token !in members
    case VArr(items) => token != "-"
    case _ => true
  }

  /** The same at the end of a longer path; `true` when the path does not resolve. */
  predicate Fresh(v: Value, tokens: seq<string>)
    requires tokens != []
    decreases |tokens|
  {
    if |tokens| == 1 then FreshAt(v, tokens[0])
    else match VChild(v, tokens[0])
         case Ok(child) => Fresh(child, tokens[1..])
         case Err(_) => true
  }

  lemma {:induction false} PutThenChild(v: Value, token: string, c: Value)
    requires VChild(v, token).Ok?
    ensures VChild(VPut(v, token, c), token) == Ok(c)
    ensures VPut(v, token, VChild(v, token).value) == v
    ensures forall d :: VPut(VPut(v, token, c), token, d) == VPut(v, token, d)
  {}

  /** What was removed can be read before, and adding it back restores the document. */
  lemma {:induction false} RemoveThenAdd(v: Value, tokens: seq<string>)
    requires tokens != []
    requires VEdit(v, tokens, Delete).Ok?
    ensures VLookup(v, tokens).Ok?
    ensures VEdit(VEdit(v, tokens, Delete).value, tokens, Insert(VLookup(v, tokens).value)) == Ok(v)
    decreases |tokens|
  {
    var removed := VEdit(v, tokens, Delete).value;
    if |tokens| == 1 {
      if v.VArr? {
        var i := Index(tokens[0], |v.items|).value;
        assert removed.items[..i] + [v.items[i]] + removed.items[i..] == v.items;
      } else {
        assert removed.members[tokens[0] := v.members[tokens[0]]] == v.members;
      }
    } else {
      var child := VChild(v, tokens[0]).value;
      RemoveThenAdd(child, tokens[1..]);
      PutThenChild(v, tokens[0], VEdit(child, tokens[1..], Delete).value);
    }
  }

  /** Removing what was added restores the document exactly when the place was free before. */
  lemma {:induction false} AddThenRemove(v: Value, tokens: seq<string>, value: Value)
    requires tokens != []
    requires VEdit(v, tokens, Insert(value)).Ok?
    ensures VEdit(VEdit(v, tokens, Insert(value)).value, tokens, Delete) == Ok(v) <==> Fresh(v, tokens)
    decreases |tokens|
  {
    var added := VEdit(v, tokens, Insert(value)).value;
    if |tokens| == 1 {
      if v.VArr? {
        if tokens[0] != "-" {
          var i := Index(tokens[0], |v.items| + 1).value;
          assert added.items[..i] + added.items[i + 1..] == v.items;
        }
      } else if tokens[0] in v.members {
        assert tokens[0] !in VEdit(added, tokens, Delete).value.members;
      } else {
        assert added.members - {tokens[0]} == v.members;
      }
    } else {
      var child := VChild(v, tokens[0]).value;
      AddThenRemove(child, tokens[1..], value);
      var child' := VEdit(child, tokens[1..], Insert(value)).value;
      PutThenChild(v, tokens[0], child');
      var back := VEdit(child', tokens[1..], Delete);
      if back.Ok? {
        PutThenChild(v, tokens[0], back.value);
      }
    }
  }

  /** After `add` without `-`, the pointer reads the value that was added. */
  lemma {:induction false} AddThenGet(v: Value, tokens: seq<string>, value: Value)
    requires tokens != []
    requires VEdit(v, tokens, Insert(value)).Ok? && Fresh(v, tokens)
    ensures VLookup(VEdit(v, tokens, Insert(value)).value, tokens) == Ok(value)
    decreases |tokens|
  {
    if |tokens| > 1 {
      var child := VChild(v, tokens[0]).value;
      AddThenGet(child, tokens[1..], value);
      PutThenChild(v, tokens[0], VEdit(child, tokens[1..], Insert(value)).value);
    } else {
      var added := VEdit(v, tokens, Insert(value)).value;
      assert VChild(added, tokens[0]) == Ok(value);
    }
  }

  function Bind(r: Outcome<Value>, tokens: seq<string>, edit: LeafEdit<Value>): Outcome<Value>
    requires tokens != []
  {
    if r.Ok? then VEdit(r.value, tokens, edit) else r
  }

  /** Assigning at an existing path is removing there and then adding there. */
  lemma {:induction false} AssignIsDeleteInsert(v: Value, tokens: seq<string>, value: Value)
    requires tokens != [] && VLookup(v, tokens).Ok?
    ensures VEdit(v, tokens, Assign(value)).Ok?
    ensures VEdit(v, tokens, Assign(value)) == Bind(VEdit(v, tokens, Delete), tokens, Insert(value))
    decreases |tokens|
  {
    if |tokens| == 1 {
      if v.VArr? {
        var i := Index(tokens[0], |v.items|).value;
        var removed := v.items[..i] + v.items[i + 1..];
        assert removed[..i] + [value] + removed[i..] == v.items[i := value];
      } else {
        assert (v.members - {tokens[0]})[tokens[0] := value] == v.members[tokens[0] := value];
      }
    } else {
      var child := VChild(v, tokens[0]).value;
      AssignIsDeleteInsert(child, tokens[1..], value);
      PutThenChild(v, tokens[0], VEdit(child, tokens[1..], Delete).value);
    }
  }

  /** `remove` succeeds exactly on the paths that `get` reads. */
  lemma {:induction false} DeleteIffLookup(v: Value, tokens: seq<string>)
    requires tokens != []
    ensures VEdit(v, tokens, Delete).Ok? <==> VLookup(v, tokens).Ok?
    ensures VEdit(v, tokens, Delete).Err? ==> VEdit(v, tokens, Delete) == VLookup(v, tokens)
    decreases |tokens|
  {
    if |tokens| == 1 {
      assert tokens[1..] == [];
      if VChild(v, tokens[0]).Ok? {
        assert VLookup(VChild(v, tokens[0]).value, tokens[1..]).Ok?;
      }
    } else if VChild(v, tokens[0]).Ok? {
      DeleteIffLookup(VChild(v, tokens[0]).value, tokens[1..]);
    }
  }

  /** Section 4.3 of RFC 6902: `replace` is `remove` followed by `add`, errors included. */
  lemma {:induction false} ReplaceIsRemoveAdd(v: Value, ptr: string, value: Value)
    requires Split(ptr).Ok? && Split(ptr).value != []
    ensures VReplace(v, ptr, value) == Bind(VRemove(v, ptr), Split(ptr).value, Insert(value))
  {
    var tokens := Split(ptr).value;
    DeleteIffLookup(v, tokens);
    if VLookup(v, tokens).Ok? {
      AssignIsDeleteInsert(v, tokens, value);
    }
  }

  /** A member of an operation, as the engine receives it. */
  function MoveMembers(from: string, path: string): map<string, Value> {
    map["op" := VStr("move"), "from" := VStr(from), "path" := VStr(path)]
  }

  /** Moving a value to a free place and back restores the document. */
  lemma {:induction false} MoveAndBack(v: Value, from: string, path: string)
    requires Split(from).Ok? && Split(from).value != [] && Split(path).Ok? && Split(path).value != []
    requires VMoveOp(v, MoveMembers(from, path)).Ok?
    requires Fresh(VRemove(v, from).value, Split(path).value)
    ensures VMoveOp(VMoveOp(v, MoveMembers(from, path)).value, MoveMembers(path, from)) == Ok(v)
  {
    var f, p := Split(from).value, Split(path).value;
    var value, removed := VLookup(v, f).value, VEdit(v, f, Delete).value;
    RemoveThenAdd(v, f);
    AddThenGet(removed, p, value);
    AddThenRemove(removed, p, value);
  }

  // ----- Moving a value into one of its own children -----

  /**
    What receives a value that is moved from `tokens` into its own child `more`.
    After an object member was removed its path is gone; after a list element
    was removed, the next element has its index and receives the value, if it
    can.
   */
  function NextAccepts(v: Value, tokens: seq<string>, more: seq<string>, value: Value): Outcome<Value>
    requires tokens != [] && more != []
    decreases |tokens|
  {
    if |tokens| > 1 then
      var child :- VChild(v, tokens[0]);
      var child' :- NextAccepts(child, tokens[1..], more, value);
      Ok(VPut(v, tokens[0], child'))
    else if v.VArr? then
      var i :- Index(tokens[0], |v.items|);
      if i + 1 == |v.items| then Err(InvalidListIndex)
      else
        var next :- VEdit(v.items[i + 1], more, Insert(value));
        Ok(VArr(v.items[..i] + [next] + v.items[i + 2..]))
    else Err(PathNotFound)
  }

  /** At the place of the removed value. */
  lemma {:induction false} MoveIntoNextAtLeaf(v: Value, token: string, more: seq<string>, value: Value)
    requires more != [] && VEdit(v, [token], Delete).Ok?
    ensures VEdit(VEdit(v, [token], Delete).value, [token] + more, Insert(value)) == NextAccepts(v, [token], more, value)
  {
    var removed := VEdit(v, [token], Delete).value;
    assert ([token] + more)[1..] == more;
    if v.VArr? {
      var i := Index(token, |v.items|).value;
      var items := v.items[..i] + v.items[i + 1..];
      assert removed == VArr(items);
      if i + 1 < |v.items| {
        assert items[i] == v.items[i + 1];
        forall next ensures items[i := next] == v.items[..i] + [next] + v.items[i + 2..] {}
      }
    }
  }

  /**
    Section 4.4 of RFC 6902 forbids moving a value into one of its own children.
    The engine does not check this.  Exactly when the move succeeds, and the
    document it leaves: the value must be a list element with a successor that
    accepts it, and it ends up inside that successor.
   */
  lemma {:induction false} MoveIntoOwnChildIs(v: Value, tokens: seq<string>, more: seq<string>, value: Value)
    requires tokens != [] && more != [] && VEdit(v, tokens, Delete).Ok?
    ensures VEdit(VEdit(v, tokens, Delete).value, tokens + more, Insert(value)) == NextAccepts(v, tokens, more, value)
    decreases |tokens|
  {
    if |tokens| == 1 {
      assert tokens == [tokens[0]];
      MoveIntoNextAtLeaf(v, tokens[0], more, value);
    } else {
      var child := VChild(v, tokens[0]).value;
      var child' := VEdit(child, tokens[1..], Delete).value;
      MoveIntoOwnChildIs(child, tokens[1..], more, value);
      PutThenChild(v, tokens[0], child');
      assert (tokens + more)[1..] == tokens[1..] + more;
    }
  }

  /** The same for the operation: `path` lies below `from`. */
  lemma {:induction false} MoveOpIntoOwnChildIs(v: Value, from: string, path: string, more: seq<string>)
    requires Split(from).Ok? && Split(from).value != [] && Split(path).Ok? && more != []
    requires Split(path).value == Split(from).value + more
    ensures VMoveOp(v, MoveMembers(from, path)).Ok? <==>
            && VLookup(v, Split(from).value).Ok?
            && NextAccepts(v, Split(from).value, more, VLookup(v, Split(from).value).value).Ok?
    ensures VMoveOp(v, MoveMembers(from, path)).Ok? ==>
              VMoveOp(v, MoveMembers(from, path)) == NextAccepts(v, Split(from).value, more, VLookup(v, Split(from).value).value)
  {
    var f := Split(from).value;
    DeleteIffLookup(v, f);
    if VLookup(v, f).Ok? {
      MoveIntoOwnChildIs(v, f, more, VLookup(v, f).value);
    }
  }

  predicate ParentIsObject(v: Value, tokens: seq<string>)
    requires tokens != []
    decreases |tokens|
  {
    if |tokens| == 1 then v.VObj?
    else VChild(v, tokens[0]).Ok? && ParentIsObject(VChild(v, tokens[0]).value, tokens[1..])
  }

  lemma {:induction false} NothingNextToAMember(v: Value, tokens: seq<string>, more: seq<string>, value: Value)
    requires tokens != [] && more != [] && ParentIsObject(v, tokens)
    ensures NextAccepts(v, tokens, more, value).Err?
    decreases |tokens|
  {
    if |tokens| > 1 {
      NothingNextToAMember(VChild(v, tokens[0]).value, tokens[1..], more, value);
    }
  }

  /** So an object member cannot be moved into its own child. */
  lemma {:induction false} MoveIntoOwnMemberFails(v: Value, tokens: seq<string>, more: seq<string>, value: Value)
    requires tokens != [] && more != [] && ParentIsObject(v, tokens) && VEdit(v, tokens, Delete).Ok?
    ensures VEdit(VEdit(v, tokens, Delete).value, tokens + more, Insert(value)).Err?
  {
    MoveIntoOwnChildIs(v, tokens, more, value);
    NothingNextToAMember(v, tokens, more, value);
  }

  /** And a list element with a list as its successor moves to any place in that list. */
  lemma {:induction false} MoveIntoOwnItemMovesIntoTheNext(items: seq<Value>, token: string, inner: string)
    requires Index(token, |items|).Ok? && Index(token, |items|).value + 1 < |items|
    requires items[Index(token, |items|).value + 1].VArr?
    requires inner != "-" && Index(inner, |items[Index(token, |items|).value + 1].items| + 1).Ok?
    ensures
      var i := Index(token, |items|).value;
      var next, j := items[i + 1].items, Index(inner, |items[i + 1].items| + 1).value;
      VEdit(VEdit(VArr(items), [token], Delete).value, [token, inner], Insert(items[i]))
      == Ok(VArr(items[..i] + [VArr(next[..j] + [items[i]] + next[j..])] + items[i + 2..]))
  {
    MoveIntoOwnChildIs(VArr(items), [token], [inner], items[Index(token, |items|).value]);
    assert [token] + [inner] == [token, inner];
  }

  /** Patches compose: the concatenation is one patch after the other. */
  lemma {:induction false} ApplyConcat(doc: Json, p: seq<Json>, q: seq<Json>)
    ensures Apply(doc, Arr(p + q)) ==
            if Apply(doc, Arr(p)).Ok? then Apply(Apply(doc, Arr(p)).value, Arr(q)) else Apply(doc, Arr(p))
    decreases |p|
  {
    if p == [] {
      assert p + q == q;
    } else {
      assert (p + q)[0] == p[0] && (p + q)[1..] == p[1..] + q;
      if ApplyOp(doc, p[0]).Ok? {
        ApplyConcat(ApplyOp(doc, p[0]).value, p[1..], q);
      }
    }
  }

  // ----- The same laws for the ordered engine -----

  /**
    Removing a value and adding it back gives a document equal to the original,
    for every document and every pointer at which `remove` succeeds.
   */
  lemma {:induction false} EngineRemoveThenAdd(doc: Json, ptr: string)
    requires WellFormed(doc) && Remove(doc, ptr).Ok?
    ensures Get(doc, ptr).Ok?
    ensures AbsOutcome(Add(Remove(doc, ptr).value, ptr, Get(doc, ptr).value)) == Ok(Abs(doc))
  {
    var tokens := Split(ptr).value;
    EditRefines(doc, tokens, Delete);
    LookupRefines(doc, tokens);
    RemoveThenAdd(Abs(doc), tokens);
    EditRefines(Edit(doc, tokens, Delete).value, tokens, Insert(Lookup(doc, tokens).value));
  }

  /** Whether the path ends at a list element or at the last member of its object. */
  predicate EndsLast(doc: Json, tokens: seq<string>)
    requires tokens != []
    decreases |tokens|
  {
    if |tokens| == 1 then
      doc.Obj? && doc.fields != [] ==> doc.fields[|doc.fields| - 1].key == tokens[0]
    else match Child(doc, tokens[0])
         case Ok(child) => EndsLast(child, tokens[1..])
         case Err(_) => true
  }

  lemma {:induction false} DelAbsent(fs: seq<Field>, key: string)
    requires DistinctKeys(fs) && HasKey(fs, key)
    ensures |DelField(fs, key)| == |fs| - 1 && !HasKey(DelField(fs, key), key)
  {
    HasKeySplit(fs);
    if fs[0].key != key {
      DelAbsent(fs[1..], key);
      HasKeySplit(DelField(fs, key));
      assert DelField(fs, key)[1..] == DelField(fs[1..], key);
    }
  }

  lemma {:induction false} DelLast(fs: seq<Field>, key: string)
    requires DistinctKeys(fs) && fs != [] && fs[|fs| - 1].key == key
    ensures HasKey(fs, key) && DelField(fs, key) == fs[..|fs| - 1] && GetField(fs, key) == fs[|fs| - 1].value
  {
    if |fs| > 1 {
      assert fs[0].key != key;
      assert fs[1..][|fs| - 2] == fs[|fs| - 1];
      DelLast(fs[1..], key);
      assert [fs[0]] + fs[1..][..|fs| - 2] == fs[..|fs| - 1];
    }
  }

  lemma {:induction false} SetChildBack(fs: seq<Field>, key: string, c: Json)
    requires HasKey(fs, key)
    ensures HasKey(SetField(fs, key, c), key) && GetField(SetField(fs, key, c), key) == c
    ensures SetField(fs, key, GetField(fs, key)) == fs
    ensures forall d :: SetField(SetField(fs, key, c), key, d) == SetField(fs, key, d)
    ensures forall d, e :: SetField(fs, key, d) == SetField(fs, key, e) ==> d == e
  {
    HasKeySplit(fs);
    var r := SetField(fs, key, c);
    HasKeySplit(r);
    if fs[0].key == key {
      assert r[1..] == fs[1..];
      forall d, e | SetField(fs, key, d) == SetField(fs, key, e) ensures d == e {
        assert SetField(fs, key, d)[0].value == d;
        assert SetField(fs, key, e)[0].value == e;
      }
    } else {
      SetChildBack(fs[1..], key, c);
      assert r[1..] == SetField(fs[1..], key, c);
      forall d, e | SetField(fs, key, d) == SetField(fs, key, e) ensures d == e {
        assert SetField(fs, key, d)[1..] == SetField(fs[1..], key, d);
        assert SetField(fs, key, e)[1..] == SetField(fs[1..], key, e);
      }
    }
  }

  lemma {:induction false} PutChildBack(doc: Json, token: string, c: Json)
    requires Child(doc, token).Ok?
    ensures Child(PutChild(doc, token, c), token) == Ok(c)
    ensures PutChild(doc, token, Child(doc, token).value) == doc
    ensures forall d :: PutChild(PutChild(doc, token, c), token, d) == PutChild(doc, token, d)
    ensures forall d, e :: PutChild(doc, token, d) == PutChild(doc, token, e) ==> d == e
  {
    if doc.Obj? {
      SetChildBack(doc.fields, token, c);
    } else {
      var i := Index(token, |doc.items|).value;
      forall d, e | PutChild(doc, token, d) == PutChild(doc, token, e) ensures d == e {
        assert PutChild(doc, token, d).items[i] == d;
        assert PutChild(doc, token, e).items[i] == e;
      }
    }
  }

  lemma {:induction false} ReAddMember(fs: seq<Field>, key: string)
    requires DistinctKeys(fs) && HasKey(fs, key)
    ensures SetField(DelField(fs, key), key, GetField(fs, key)) == fs <==> fs[|fs| - 1].key == key
  {
    DelAbsent(fs, key);
    if fs[|fs| - 1].key == key { DelLast(fs, key); }
    var v := GetField(fs, key);
    SetAbsent(DelField(fs, key), key, v);
    var back := DelField(fs, key) + [Field(key, v)];
    assert back[|fs| - 1].key == key;
    assert fs[..|fs| - 1] + [fs[|fs| - 1]] == fs;
  }

  lemma {:induction false} ReAddItem(items: seq<Json>, i: nat)
    requires i < |items|
    ensures var removed := items[..i] + items[i + 1..]; removed[..i] + [items[i]] + removed[i..] == items
  {}

  lemma {:induction false} RemoveThenAddItem(items: seq<Json>, token: string)
    requires Index(token, |items|).Ok?
    ensures
      var v := items[Index(token, |items|).value];
      EditLeaf(EditLeaf(Arr(items), token, Delete).value, token, Insert(v)) == Ok(Arr(items))
  {
    var i := Index(token, |items|).value;
    ReAddItem(items, i);
    var removed := items[..i] + items[i + 1..];
    assert EditLeaf(Arr(items), token, Delete) == Ok(Arr(removed));
    assert Index(token, |removed| + 1) == Ok(i);
  }

  lemma {:induction false} RemoveThenAddAtLeaf(doc: Json, token: string)
    requires WellFormed(doc) && EditLeaf(doc, token, Delete).Ok?
    ensures Child(doc, token).Ok?
    ensures EditLeaf(EditLeaf(doc, token, Delete).value, token, Insert(Child(doc, token).value)) == Ok(doc)
            <==> EndsLast(doc, [token])
  {
    if doc.Arr? {
      assert Index(token, |doc.items|).Ok?;
      RemoveThenAddItem(doc.items, token);
    } else {
      ReAddMember(doc.fields, token);
      assert EditLeaf(doc, token, Delete) == Ok(Obj(DelField(doc.fields, token)));
    }
  }

  /**
    The member order of the document, which the traversal of a plan follows, is
    restored as well if and only if the path does not end at an object member
    that has others after it.
   */
  lemma {:induction false} RemoveThenAddKeepsOrder(doc: Json, tokens: seq<string>)
    requires tokens != [] && WellFormed(doc) && Edit(doc, tokens, Delete).Ok?
    ensures Lookup(doc, tokens).Ok?
    ensures Edit(Edit(doc, tokens, Delete).value, tokens, Insert(Lookup(doc, tokens).value)) == Ok(doc)
            <==> EndsLast(doc, tokens)
    decreases |tokens|
  {
    if |tokens| == 1 {
      assert tokens == [tokens[0]] && tokens[1..] == [];
      RemoveThenAddAtLeaf(doc, tokens[0]);
      assert Lookup(Child(doc, tokens[0]).value, tokens[1..]) == Ok(Child(doc, tokens[0]).value);
    } else {
      var child := Child(doc, tokens[0]).value;
      ChildRefines(doc, tokens[0]);
      RemoveThenAddKeepsOrder(child, tokens[1..]);
      PutChildBack(doc, tokens[0], Edit(child, tokens[1..], Delete).value);
    }
  }

  /** A document whose member order changes: removing and re-adding `a` puts it after `b`. */
  lemma {:induction false} RemoveThenAddMovesKeyToTheEnd()
    ensures
      var doc := Obj([Field("a", Null), Field("b", Null)]);
      Edit(doc, ["a"], Delete).Ok? && Edit(Edit(doc, ["a"], Delete).value, ["a"], Insert(Null)) != Ok(doc)
  {
    var doc := Obj([Field("a", Null), Field("b", Null)]);
    assert doc.fields[0].key == "a" && doc.fields[1].key != "a";
    RemoveThenAddKeepsOrder(doc, ["a"]);
    assert Child(doc, "a") == Ok(Null);
    assert ["a"][1..] == [];
    assert Lookup(doc, ["a"]) == Lookup(Null, ["a"][1..]);
  }
}
