/** Matching the scans of two scale factors by their dataset-independent signatures. */
module ScanMatching {
  import opened Basics
  import opened Json
  import opened Sorting
  import opened PlanStructure

  // ----- Signatures -----

  /** `d.get(key, default)`. */
  function MemberOr(fs: seq<Field>, key: string, default: Json): Json {
    if HasKey(fs, key) then GetField(fs, key) else default
  }

  predicate IsScanNode(node: Json) {
    node.Obj? && HasKey(node.fields, "parquetScan")
  }

  /** The signature of a scan with these columns, projection, constraints and predicate. */
  function ScanSignature(columns: Json, projection: Json, constraints: Json, pred: Json): Value {
    VObj(map[
      "op" := VStr("parquetScan"),
      "baseConf" := VObj(map[
        "schema.columns" := Abs(columns), "projection" := Abs(projection), "constraints" := Abs(constraints)]),
      "predicate" := Abs(pred)])
  }

  /**
    `_scan_normalized_signature`.  Two canonical dumps are equal exactly when
    the dumped documents are equal as JSON values, so a signature is a `Value`.
   */
  function Signature(node: Json): Result<Value, TransferError> {
    if !IsScanNode(node) then Ok(Abs(node))
    else match GetField(node.fields, "parquetScan")
         case Obj(scan) => (
           match MemberOr(scan, "baseConf", Obj([]))
           case Obj(base) =>
             var schema := MemberOr(base, "schema", Obj([]));
             var columns := if schema.Obj? then MemberOr(schema.fields, "columns", Null) else Null;
             Ok(ScanSignature(columns, MemberOr(base, "projection", Null), MemberOr(base, "constraints", Null),
                              MemberOr(scan, "predicate", Null)))
           case _ => Err(AttributeMissing)
         )
         case _ => Err(AttributeMissing)
  }

  // ----- Table information -----

  datatype Entry = Entry(id: Json, node: Json)

  function EntriesOf(items: seq<Json>): seq<Entry> {
    if items == [] then []
    else
      var rest := EntriesOf(items[1..]);
      if items[0].Obj? && HasKey(items[0].fields, "id") && HasKey(items[0].fields, "node") then
        [Entry(GetField(items[0].fields, "id"), GetField(items[0].fields, "node"))] + rest
      else rest
  }

  /** `_table_info_entries`. */
  function TableInfoEntries(info: Json): Result<seq<Entry>, TransferError> {
    match info
    case Null => Ok([])
    case Arr(items) => Ok(EntriesOf(items))
    case Obj(fields) =>
      if HasKey(fields, "entries") && GetField(fields, "entries").Arr? then Ok(EntriesOf(GetField(fields, "entries").items))
      else Err(BadTableInfo)
    case _ => Err(BadTableInfo)
  }

  type Signatures = map<int, Value>

  function AddSignature(sigs: Signatures, entry: Entry): Result<Signatures, TransferError> {
    if !entry.id.Int? && !entry.id.Bool? then Err(BadTableInfo)
    else
      var sig :- Signature(entry.node);
      Ok(sigs[ToInt(entry.id) := sig])
  }

  function SignaturesFrom(sigs: Signatures, entries: seq<Entry>): Result<Signatures, TransferError>
    decreases |entries|
  {
    if entries == [] then Ok(sigs)
    else
      var next :- AddSignature(sigs, entries[0]);
      SignaturesFrom(next, entries[1..])
  }

  function SignatureMap(info: Json): Result<Signatures, TransferError> {
    var entries :- TableInfoEntries(info);
    SignaturesFrom(map[], entries)
  }

  /** `_build_scan_signature_map`. */
  method BuildScanSignatureMap(info: Json) returns (r: Result<Signatures, TransferError>)
    ensures r == SignatureMap(info)
  {
    var entries :- TableInfoEntries(info);
    var sigById: Signatures, i := map[], 0;
    while i < |entries|
      invariant 0 <= i <= |entries|
      invariant SignaturesFrom(map[], entries) == SignaturesFrom(sigById, entries[i..])
    {
      sigById :- AddSignature(sigById, entries[i]);
      i := i + 1;
    }
    return Ok(sigById);
  }

  // ----- The mapping -----

  function IdsWith(sigs: Signatures, sig: Value): set<int> {
    set i | i in sigs && sigs[i] == sig
  }

  /** Enough target scans for every source signature. */
  predicate Matchable(sf1: Signatures, sf2: Signatures) {
    forall i | i in sf1 :: |IdsWith(sf1, sf1[i])| <= |IdsWith(sf2, sf1[i])|
  }

  lemma {:induction false} HasRank(sf1: Signatures, i: int)
    requires i in sf1
    ensures CountBelow(IdsWith(sf1, sf1[i]), i) < |IdsWith(sf1, sf1[i])|
  {
    PositionOf(IdsWith(sf1, sf1[i]), i);
  }

  /** Enough target scans for the signature of one source scan. */
  predicate Enough(sf1: Signatures, sf2: Signatures, i: int) {
    i in sf1 && |IdsWith(sf1, sf1[i])| <= |IdsWith(sf2, sf1[i])|
  }

  /** The k-th source id of a signature is paired with its k-th target id. */
  function Partner(sf1: Signatures, sf2: Signatures, i: int): int
    requires Enough(sf1, sf2, i)
  {
    HasRank(sf1, i);
    Sorted(IdsWith(sf2, sf1[i]))[CountBelow(IdsWith(sf1, sf1[i]), i)]
  }

  /** `_build_scan_id_mapping` as a function of the two signature maps. */
  function ScanMapping(sf1: Signatures, sf2: Signatures): Result<map<int, int>, TransferError> {
    if Matchable(sf1, sf2) then Ok(map i | i in sf1 :: Partner(sf1, sf2, i)) else Err(ScanUnmatched)
  }

  ghost predicate Injective(m: map<int, int>) {
    forall i, j | i in m && j in m && m[i] == m[j] :: i == j
  }

  /** A way to send every source scan to a target scan of its own with the same signature. */
  ghost predicate Preserving(m: map<int, int>, sf1: Signatures, sf2: Signatures) {
    && m.Keys == sf1.Keys && Injective(m)
    && forall i | i in sf1 :: m[i] in sf2 && sf2[m[i]] == sf1[i]
  }

  lemma {:induction false} PartnerSignature(sf1: Signatures, sf2: Signatures, i: int)
    requires Matchable(sf1, sf2) && i in sf1
    ensures Partner(sf1, sf2, i) in sf2 && sf2[Partner(sf1, sf2, i)] == sf1[i]
  {
    HasRank(sf1, i);
    assert Partner(sf1, sf2, i) in Sorted(IdsWith(sf2, sf1[i]));
  }

  /** Within one signature the pairing keeps the order of ids. */
  lemma {:induction false} PartnerMonotone(sf1: Signatures, sf2: Signatures, i: int, j: int)
    requires Matchable(sf1, sf2) && i in sf1 && j in sf1 && sf1[i] == sf1[j] && i < j
    ensures Partner(sf1, sf2, i) < Partner(sf1, sf2, j)
  {
    var ids := IdsWith(sf1, sf1[i]);
    PositionOf(ids, i);
    PositionOf(ids, j);
    var a, b := CountBelow(ids, i), CountBelow(ids, j);
    assert Increasing(Sorted(ids)) && a < b;
  }

  /** The mapping that is built preserves signatures and is injective. */
  lemma {:induction false} MappingPreserves(sf1: Signatures, sf2: Signatures)
    requires Matchable(sf1, sf2)
    ensures Preserving(ScanMapping(sf1, sf2).value, sf1, sf2)
  {
    var m := ScanMapping(sf1, sf2).value;
    forall i | i in sf1 ensures m[i] in sf2 && sf2[m[i]] == sf1[i] {
      PartnerSignature(sf1, sf2, i);
    }
    forall i, j | i in m && j in m && m[i] == m[j] ensures i == j {
      if i < j { PartnerMonotone(sf1, sf2, i, j); }
      if j < i { PartnerMonotone(sf1, sf2, j, i); }
    }
  }

  lemma {:induction false} ImageSize(m: map<int, int>, s: set<int>)
    requires Injective(m) && s <= m.Keys
    ensures |set i | i in s :: m[i]| == |s|
  {
    if s == {} {
      assert (set i | i in s :: m[i]) == {};
    } else {
      var x := Inhabitant(s);
      ImageSize(m, s - {x});
      assert (set i | i in s :: m[i]) == (set i | i in s - {x} :: m[i]) + {m[x]};
      assert m[x] !in set i | i in s - {x} :: m[i];
    }
  }

  lemma {:induction false} SubsetSize(a: set<int>, b: set<int>)
    requires a <= b
    ensures |a| <= |b|
  {
    if a != {} {
      var x := Inhabitant(a);
      SubsetSize(a - {x}, b - {x});
    }
  }

  /** The builder finds a mapping exactly when some signature-preserving injection exists. */
  lemma {:induction false} MatchableIffInjection(sf1: Signatures, sf2: Signatures)
    ensures ScanMapping(sf1, sf2).Ok? <==> exists m :: Preserving(m, sf1, sf2)
  {
    if Matchable(sf1, sf2) {
      MappingPreserves(sf1, sf2);
    }
    if m :| Preserving(m, sf1, sf2) {
      forall i | i in sf1 ensures |IdsWith(sf1, sf1[i])| <= |IdsWith(sf2, sf1[i])| {
        var ids := IdsWith(sf1, sf1[i]);
        ImageSize(m, ids);
        SubsetSize(set k | k in ids :: m[k], IdsWith(sf2, sf1[i]));
      }
    }
  }

  /** Matching a table with itself maps every scan to itself. */
  lemma {:induction false} MatchingItself(sf: Signatures)
    ensures Matchable(sf, sf)
    ensures ScanMapping(sf, sf).value == map i | i in sf :: i
  {
    forall i | i in sf ensures Partner(sf, sf, i) == i {
      PositionOf(IdsWith(sf, sf[i]), i);
    }
  }
}
