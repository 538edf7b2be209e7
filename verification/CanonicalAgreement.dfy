/**
 Where the texts that are built from one receipt are the same: by the two SDKs, by
 the Python SDK from a model object, and by the worker when it signs and verifies.
 */
module CanonicalAgreement {
  import opened Options
  import opened JsonText
  import opened CanonicalPayload

  // ----- where the two SDKs agree -----

  predicate Plain(s: string) {
    forall i :: 0 <= i < |s| ==> s[i] as int < 0x7f
  }

  predicate PlainField(f: Field) {
    Plain(f.name) && (f.value.Some? ==> Plain(f.value.value))
  }

  predicate PlainFields(fs: seq<Field>) {
    forall f :: f in fs ==> PlainField(f)
  }

  lemma {:induction false} PlainLexAgree(a: string, b: string)
    requires Plain(a) && Plain(b)
    ensures Lex(CodeUnits, a, b) == Lex(CodePoints, a, b)
  {
    if a == "" || b == "" {
    } else {
      assert a[0] in a && b[0] in b;
      PlainLexAgree(a[1..], b[1..]);
    }
  }

  lemma PlainSortsAgree(fs: seq<Field>)
    requires DistinctNames(fs) && PlainFields(fs)
    ensures Sort(CodeUnits, fs) == Sort(CodePoints, fs)
  {
    var us, ps := Sort(CodeUnits, fs), Sort(CodePoints, fs);
    SortSorts(CodeUnits, fs);
    SortSorts(CodePoints, fs);
    forall i, j | 0 <= i < j < |us|
      ensures Less(CodePoints, us[i].name, us[j].name)
    {
      assert us[i] in fs && us[j] in fs;
      PlainLexAgree(us[i].name, us[j].name);
    }
    SortedListingIsUnique(CodePoints, us, ps);
  }

  lemma {:induction false} PlainEscapesAgree(s: string)
    requires Plain(s)
    ensures EscapedAll(Stringify, s) == EscapedAll(Dumps, s)
  {
    if s == "" {
    } else {
      assert s[0] in s;
      PlainEscapesAgree(s[1..]);
    }
  }

  lemma {:induction false} PlainMembersAgree(fs: seq<Field>)
    requires fs != [] && PlainFields(fs)
    ensures Members(Stringify, fs) == Members(Dumps, fs)
  {
    assert fs[0] in fs;
    PlainEscapesAgree(fs[0].name);
    if fs[0].value.Some? {
      PlainEscapesAgree(fs[0].value.value);
    }
    if |fs| == 1 {
    } else {
      PlainMembersAgree(fs[1..]);
    }
  }

  lemma {:induction false} DumpsIsPlain(s: string)
    ensures Plain(EscapedAll(Dumps, s))
  {
    if s == "" {
    } else {
      DumpsIsPlain(s[1..]);
      HexIsPlain(s[0]);
    }
  }

  lemma HexIsPlain(c: char)
    ensures Plain(Escaped(Dumps, c))
  {
    var n := c as int;
    if n >= 0x10000 {
      UnitIsPlain(0xD800 + (n - 0x10000) / 0x400);
      UnitIsPlain(0xDC00 + (n - 0x10000) % 0x400);
    } else {
      UnitIsPlain(n);
    }
  }

  lemma UnitIsPlain(n: nat)
    ensures Plain(Unit(n))
  {
    DigitsArePlain(n, 4);
  }

  lemma {:induction false} DigitsArePlain(n: nat, k: nat)
    ensures Plain(HexDigits(n, k))
  {
    if k == 0 {
    } else {
      DigitsArePlain(n / 16, k - 1);
    }
  }

  lemma DumpedMemberIsPlain(f: Field)
    ensures Plain(Member(Dumps, f))
  {
    DumpsIsPlain(f.name);
    if f.value.Some? {
      DumpsIsPlain(f.value.value);
    }
  }

  lemma {:induction false} DumpedMembersArePlain(fs: seq<Field>)
    requires fs != []
    ensures Plain(Members(Dumps, fs))
    decreases |fs|
  {
    DumpedMemberIsPlain(fs[0]);
    if |fs| == 1 {
    } else {
      DumpedMembersArePlain(fs[1..]);
    }
  }

  /** `part` stands somewhere in `whole`, so it is plain if `whole` is. */
  lemma PartIsPlain(whole: string, before: string, part: string, after: string)
    requires whole == before + part + after && Plain(whole)
    ensures Plain(part)
  {
    forall i | 0 <= i < |part|
      ensures part[i] as int < 0x7f
    {
      assert part[i] == whole[|before| + i];
    }
  }

  lemma PlainEscape(c: char, tail: string)
    requires Plain(Escaped(Stringify, c) + tail)
    ensures c as int < 0x7f && Plain(tail)
  {
    PartIsPlain(Escaped(Stringify, c) + tail, Escaped(Stringify, c), tail, "");
    assert (Escaped(Stringify, c) + tail)[0] == Escaped(Stringify, c)[0];
  }

  lemma {:induction false} StringifyKeepsPlainness(s: string)
    requires Plain(EscapedAll(Stringify, s))
    ensures Plain(s)
  {
    if s == "" {
    } else {
      PlainEscape(s[0], EscapedAll(Stringify, s[1..]));
      StringifyKeepsPlainness(s[1..]);
      forall i | 0 <= i < |s|
        ensures s[i] as int < 0x7f
      {
        if i > 0 {
          assert s[i] == s[1..][i - 1];
        }
      }
    }
  }

  lemma QuotedIsPlain(s: string)
    requires Plain(Quoted(Stringify, s))
    ensures Plain(s)
  {
    PartIsPlain(Quoted(Stringify, s), ['\"'], EscapedAll(Stringify, s), ['\"']);
    StringifyKeepsPlainness(s);
  }

  lemma MemberIsPlain(f: Field)
    requires Plain(Member(Stringify, f))
    ensures PlainField(f)
  {
    PartIsPlain(Member(Stringify, f), "", Quoted(Stringify, f.name), [':'] + Valued(Stringify, f.value));
    QuotedIsPlain(f.name);
    if f.value.Some? {
      PartIsPlain(Member(Stringify, f), Quoted(Stringify, f.name) + [':'], Quoted(Stringify, f.value.value), "");
      QuotedIsPlain(f.value.value);
    }
  }

  lemma PlainMembersSplit(f: Field, tail: string)
    requires Plain(Member(Stringify, f) + [','] + tail)
    ensures PlainField(f) && Plain(tail)
  {
    var head := Member(Stringify, f);
    PartIsPlain(head + [','] + tail, "", head, [','] + tail);
    PartIsPlain(head + [','] + tail, head + [','], tail, "");
    MemberIsPlain(f);
  }

  lemma {:induction false} PlainMembersArePlainFields(fs: seq<Field>)
    requires fs != [] && Plain(Members(Stringify, fs))
    ensures forall i :: 0 <= i < |fs| ==> PlainField(fs[i])
    decreases |fs|
  {
    if |fs| == 1 {
      MemberIsPlain(fs[0]);
    } else {
      PlainMembersSplit(fs[0], Members(Stringify, fs[1..]));
      PlainMembersArePlainFields(fs[1..]);
      forall i | 0 <= i < |fs|
        ensures PlainField(fs[i])
      {
        if i > 0 {
          assert fs[i] == fs[1..][i - 1];
        }
      }
    }
  }

  lemma TextsEqualMembers(us: seq<Field>, ps: seq<Field>)
    requires us != [] && Object(Stringify, us) == Object(Dumps, ps)
    ensures ps != [] && Members(Stringify, us) == Members(Dumps, ps)
  {
    var t := Object(Stringify, us);
    ObjectRoundTrip(Stringify, us);
    ObjectRoundTrip(Dumps, ps);
    assert t[1..|t| - 1] == Members(Stringify, us);
    assert t[1..|t| - 1] == Members(Dumps, ps);
  }

  /** The two writers give the same text exactly for the same listing of plain fields. */
  lemma WritersAgree(us: seq<Field>, ps: seq<Field>)
    ensures Object(Stringify, us) == Object(Dumps, ps) <==> us == ps && PlainFields(us)
  {
    ObjectRoundTrip(Stringify, us);
    ObjectRoundTrip(Dumps, ps);
    if us == ps && PlainFields(us) && us != [] {
      PlainMembersAgree(us);
    }
    if Object(Stringify, us) == Object(Dumps, ps) && us != [] {
      TextsEqualMembers(us, ps);
      DumpedMembersArePlain(ps);
      PlainMembersArePlainFields(us);
    }
  }

  // ----- where JavaScript lists a sorted object in another order -----

  /**
   By name `f` comes first, yet JavaScript lists `g` before it: an index after a
   name that is none, or after a greater index.
   */
  predicate OutOfPlace(f: Field, g: Field) {
    && Less(CodePoints, f.name, g.name)
    && IsIndex(g.name)
    && (IsIndex(f.name) ==> Less(Numeric, g.name, f.name))
  }

  predicate AllInPlace(fs: seq<Field>) {
    forall f, g :: f in fs && g in fs ==> !OutOfPlace(f, g)
  }

  /** A field that stands before every index already listed stays in front. */
  lemma InsertFirst(f: Field, fs: seq<Field>)
    requires forall g :: g in fs ==> Less(Numeric, f.name, g.name)
    ensures Insert(Numeric, f, fs) == [f] + fs
  {
    EmptyOrHeaded(fs);
  }

  lemma InPlacePrecedes(f: Field, g: Field)
    requires Less(CodePoints, f.name, g.name) && !OutOfPlace(f, g) && IsIndex(g.name)
    ensures IsIndex(f.name) && Less(Numeric, f.name, g.name)
  {
    LessIsOrder(CodePoints, f.name, g.name, f.name);
    LessIsOrder(Numeric, f.name, g.name, f.name);
  }

  lemma FirstIndexStaysFirst(f: Field, rest: seq<Field>)
    requires Keeps(Indexed, f) && !Keeps(NotIndexed, f)
    requires forall g :: g in Sort(Numeric, Filter(Indexed, rest)) ==> Less(Numeric, f.name, g.name)
    ensures Enumerate([f] + rest) == [f] + Enumerate(rest)
  {
    var indices, others := Sort(Numeric, Filter(Indexed, rest)), Filter(NotIndexed, rest);
    calc {
      Enumerate([f] + rest);
      { FilterCons(Indexed, f, rest); FilterCons(NotIndexed, f, rest); }
      Sort(Numeric, [f] + Filter(Indexed, rest)) + ([] + others);
      { SortCons(f, Filter(Indexed, rest)); }
      Insert(Numeric, f, indices) + ([] + others);
      { InsertFirst(f, indices); assert [] + others == others; }
      [f] + indices + others;
    }
  }

  lemma FilterCons(kind: Kind, f: Field, fs: seq<Field>)
    ensures Filter(kind, [f] + fs) == (if Keeps(kind, f) then [f] else []) + Filter(kind, fs)
  {
    assert ([f] + fs)[1..] == fs;
  }

  lemma SortCons(f: Field, fs: seq<Field>)
    ensures Sort(Numeric, [f] + fs) == Insert(Numeric, f, Sort(Numeric, fs))
  {
    assert ([f] + fs)[1..] == fs;
  }

  lemma {:induction false} InPlaceIsKept(fs: seq<Field>)
    requires Sorted(CodePoints, fs) && AllInPlace(fs)
    ensures Enumerate(fs) == fs
  {
    if fs == [] {
    } else {
      var f, rest := fs[0], fs[1..];
      assert fs == [f] + rest;
      forall g | g in rest && IsIndex(g.name)
        ensures IsIndex(f.name) && Less(Numeric, f.name, g.name)
      {
        assert f in fs && g in fs;
        InPlacePrecedes(f, g);
      }
      if IsIndex(f.name) {
        InPlaceIsKept(rest);
        assert forall g :: g in Filter(Indexed, rest) ==> g in rest && IsIndex(g.name);
        FirstIndexStaysFirst(f, rest);
      } else {
        NoIndicesAreKept(fs);
      }
    }
  }

  lemma NoIndicesAreKept(fs: seq<Field>)
    requires forall f :: f in fs ==> !IsIndex(f.name)
    ensures Enumerate(fs) == fs
  {
    KeepsAll(NotIndexed, fs);
    EmptyOrHeaded(Filter(Indexed, fs));
    assert Filter(Indexed, fs) == [];
    assert [] + fs == fs;
  }

  lemma IndicesComeFirst(fs: seq<Field>, j: nat)
    requires Enumerate(fs) == fs && j < |fs| && IsIndex(fs[j].name)
    ensures j < |Sort(Numeric, Filter(Indexed, fs))|
  {
    var first, others := |Sort(Numeric, Filter(Indexed, fs))|, Filter(NotIndexed, fs);
    forall k | first <= k < |fs|
      ensures !IsIndex(fs[k].name)
    {
      assert fs[k] == others[k - first];
      assert fs[k] in others;
    }
  }

  lemma KeptIsInPlace(fs: seq<Field>, i: nat, j: nat)
    requires Sorted(CodePoints, fs) && Enumerate(fs) == fs && i < |fs| && j < |fs|
    ensures !OutOfPlace(fs[i], fs[j])
  {
    var f, g := fs[i], fs[j];
    var indices := Sort(Numeric, Filter(Indexed, fs));
    LessIsOrder(CodePoints, f.name, g.name, f.name);
    if Less(CodePoints, f.name, g.name) && IsIndex(g.name) {
      assert i < j;
      IndicesComeFirst(fs, j);
      SortedIsDistinct(CodePoints, fs);
      FilterKeepsDistinct(Indexed, fs);
      SortSorts(Numeric, Filter(Indexed, fs));
      assert f == indices[i] && g == indices[j];
      assert f in indices;
      LessIsOrder(Numeric, f.name, g.name, f.name);
    }
  }

  /** A sorted listing survives as the properties of an object exactly when all its names are in place. */
  lemma KeptExactlyInPlace(fs: seq<Field>)
    requires Sorted(CodePoints, fs)
    ensures Enumerate(fs) == fs <==> AllInPlace(fs)
  {
    if AllInPlace(fs) {
      InPlaceIsKept(fs);
    }
    if Enumerate(fs) == fs {
      forall f, g | f in fs && g in fs
        ensures !OutOfPlace(f, g)
      {
        var i :| 0 <= i < |fs| && fs[i] == f;
        var j :| 0 <= j < |fs| && fs[j] == g;
        KeptIsInPlace(fs, i, j);
      }
    }
  }

  // ----- the two SDKs -----

  /** What a caller can check before relying on both SDKs: no field that TypeScript drops, moves or spells otherwise. */
  predicate Portable(receipt: seq<Field>) {
    var payload := WithoutSignature(receipt);
    && PlainFields(payload)
    && AllInPlace(payload)
    && forall f :: f in payload ==> f.name != PROTO
  }

  lemma PortableSortsAlike(receipt: seq<Field>)
    requires DistinctNames(receipt) && PlainFields(WithoutSignature(receipt))
    requires forall f :: f in WithoutSignature(receipt) ==> f.name != PROTO
    ensures Sort(CodeUnits, Signable(receipt)) == Sort(CodePoints, WithoutSignature(receipt))
  {
    KeepsAll(Assigned, WithoutSignature(receipt));
    FilterKeepsDistinct(Unsigned, receipt);
    PlainSortsAgree(WithoutSignature(receipt));
  }

  /**
   Main result: the two SDKs build the same text exactly when every character of
   the payload is below DEL, no index-like name is out of place, and no field is
   named `__proto__`.
   */
  lemma SdksAgreeOnPortableReceipts(receipt: seq<Field>)
    requires DistinctNames(receipt)
    ensures TypeScriptText(receipt) == PythonText(receipt) <==> Portable(receipt)
  {
    var payload := WithoutSignature(receipt);
    FilterKeepsDistinct(Unsigned, receipt);
    TypeScriptSortsSignable(receipt);
    PythonSortsOnce(receipt);
    var us, ps := Sort(CodeUnits, Signable(receipt)), Sort(CodePoints, payload);
    WritersAgree(Enumerate(us), ps);
    EnumerateKeepsFields(us);
    SortSorts(CodePoints, payload);
    KeptExactlyInPlace(ps);
    if Portable(receipt) {
      PortableSortsAlike(receipt);
    }
    if TypeScriptText(receipt) == PythonText(receipt) {
      assert forall f :: f in payload <==> f in ps;
      assert forall f :: f in payload ==> f in Signable(receipt);
      PortableSortsAlike(receipt);
    }
  }

  /** Index-like names part the SDKs where they are out of place: JavaScript lists 9 before 10. */
  lemma TenBeforeNineIsOutOfPlace(ten: Option<string>, nine: Option<string>)
    ensures TypeScriptText([Field("10", ten), Field("9", nine)]) != PythonText([Field("10", ten), Field("9", nine)])
  {
    var receipt := [Field("10", ten), Field("9", nine)];
    var f, g := receipt[0], receipt[1];
    assert f in WithoutSignature(receipt) && g in WithoutSignature(receipt);
    assert OutOfPlace(f, g);
    SdksAgreeOnPortableReceipts(receipt);
  }

  lemma PortableFields(receipt: seq<Field>)
    requires forall f :: f in receipt ==> PlainField(f) && f.name != PROTO
    requires AllInPlace(receipt)
    ensures Portable(receipt)
  {
  }

  lemma OneComesBeforeTwo()
    ensures Less(Numeric, "1", "2") && Less(CodePoints, "1", "2")
  {
  }

  /** And they do not where they are in place. */
  lemma OneBeforeTwoIsInPlace(one: Field, two: Field)
    requires one == Field("1", None) && two == Field("2", None)
    ensures TypeScriptText([two, one]) == PythonText([two, one])
  {
    var receipt := [two, one];
    OneComesBeforeTwo();
    LessIsOrder(CodePoints, "1", "2", "1");
    LessIsOrder(CodePoints, "2", "1", "2");
    LessIsOrder(Numeric, "1", "2", "1");
    forall f, g | f in receipt && g in receipt
      ensures !OutOfPlace(f, g)
    {
      assert (f == one || f == two) && (g == one || g == two);
    }
    PortableFields(receipt);
    SdksAgreeOnPortableReceipts(receipt);
  }

  // ----- through the Python model -----

  /** The two pydantic models that `get_status` and `verify_offline` name. */
  datatype Model = SignedReceipt | StatusResponse

  /** The fields of the model in the order of their declaration. */
  function ModelNames(m: Model): seq<string> {
    ["receipt_id", "issued_at", "expires_at", "issuer", "mic", "status", "source", "reason",
     "halt_detection", "receipt_mode", "schema_version", "public_key_id", SIGNATURE]
    + if m.SignedReceipt? then [] else ["discovery_url", "receipt", "extensions"]
  }

  /** The fields that default to None. */
  predicate IsOptional(name: string) {
    name == "reason" || IsWrapper(name)
  }

  predicate Has(fs: seq<Field>, name: string) {
    exists f :: f in fs && f.name == name
  }

  /** What a field may hold; the two dictionaries are none in a flat object. */
  predicate Admits(name: string, value: Option<string>) {
    match value
    case None => IsOptional(name)
    case Some(v) =>
      && name != "receipt" && name != "extensions"
      && (name == "status" ==> v in ["OPEN", "CLOSED", "HALTED", "UNKNOWN"])
      && (name == "source" ==> v in ["SCHEDULE", "OVERRIDE", "SYSTEM", "REALTIME"])
      && (name == "receipt_mode" ==> v in ["demo", "live"])
  }

  predicate HasRequired(names: seq<string>, receipt: seq<Field>) {
    forall name :: name in names && !IsOptional(name) ==> Has(receipt, name)
  }

  /** What is required is there, and every field holds what it may. */
  predicate Fits(names: seq<string>, receipt: seq<Field>) {
    && HasRequired(names, receipt)
    && (forall f :: f in receipt && f.name in names ==> Admits(f.name, f.value))
  }

  /** `model_validate` accepts. */
  predicate Validates(m: Model, receipt: seq<Field>) {
    Fits(ModelNames(m), receipt)
  }

  function Projected(names: seq<string>, receipt: seq<Field>): (r: seq<Field>)
    ensures |r| == |names| && forall i :: 0 <= i < |r| ==> r[i].name == names[i]
  {
    if names == [] then []
    else
      [Field(names[0], if Has(receipt, names[0]) then ValueOf(receipt, names[0]) else None)]
      + Projected(names[1..], receipt)
  }

  /** The model keeps its own fields and drops every other; `model_dump` writes an absent one as null. */
  function ModelDump(m: Model, receipt: seq<Field>): seq<Field> {
    Projected(ModelNames(m), receipt)
  }

  predicate AllDistinct(names: seq<string>) {
    forall i, j :: 0 <= i < j < |names| ==> names[i] != names[j]
  }

  lemma ModelNamesAreDistinct(m: Model)
    ensures AllDistinct(ModelNames(m))
  {
  }

  /** A name that begins with a letter is no index and not the prototype's. */
  lemma ModelNamesAreOrdinary(m: Model, name: string)
    requires name in ModelNames(m)
    ensures !IsIndex(name) && name != PROTO
  {
    var i :| 0 <= i < |ModelNames(m)| && ModelNames(m)[i] == name;
    assert ModelNames(m)[i] != "" && 'a' <= ModelNames(m)[i][0] <= 'z';
    assert PROTO[0] == '_';
  }

  /** A field of the receipt is in the dump exactly when the model knows it; what is missing is null there. */
  lemma {:induction false} ProjectionHolds(names: seq<string>, receipt: seq<Field>, f: Field)
    requires DistinctNames(receipt)
    ensures f in Projected(names, receipt) <==>
              f.name in names && if Has(receipt, f.name) then f in receipt else f.value == None
  {
    if names == [] {
    } else {
      ProjectionHolds(names[1..], receipt, f);
      assert f.name in names <==> f.name == names[0] || f.name in names[1..];
      if Has(receipt, names[0]) {
        var g :| g in receipt && g.name == names[0];
        ValueOfField(receipt, g);
      }
    }
  }

  /** Every optional field among `names` was sent, and nothing that counts was sent besides `names`. */
  predicate Covers(names: seq<string>, receipt: seq<Field>) {
    && (forall name :: name in names && IsOptional(name) ==> Has(receipt, name))
    && (forall f :: f in Signable(receipt) ==> f.name in names)
  }

  lemma CoveredIsTheDump(names: seq<string>, receipt: seq<Field>)
    requires DistinctNames(receipt) && PROTO !in names && HasRequired(names, receipt)
    requires Covers(names, receipt)
    ensures SameFields(Signable(receipt), WithoutSignature(Projected(names, receipt)))
  {
    forall f
      ensures f in Signable(receipt) <==> f in WithoutSignature(Projected(names, receipt))
    {
      ProjectionHolds(names, receipt, f);
    }
  }

  lemma MissingIsNull(names: seq<string>, receipt: seq<Field>, name: string)
    requires DistinctNames(receipt) && name in names && name != SIGNATURE && !Has(receipt, name)
    ensures Field(name, None) in WithoutSignature(Projected(names, receipt))
    ensures Field(name, None) !in Signable(receipt)
  {
    ProjectionHolds(names, receipt, Field(name, None));
    assert Field(name, None).name == name;
  }

  lemma TheDumpIsCovered(names: seq<string>, receipt: seq<Field>)
    requires DistinctNames(receipt)
    requires SameFields(Signable(receipt), WithoutSignature(Projected(names, receipt)))
    ensures Covers(names, receipt)
  {
    forall f | f in Signable(receipt)
      ensures f.name in names
    {
      ProjectionHolds(names, receipt, f);
    }
    forall name | name in names && IsOptional(name)
      ensures Has(receipt, name)
    {
      if !Has(receipt, name) {
        MissingIsNull(names, receipt, name);
      }
    }
  }

  lemma ProjectionHasTheSameText(names: seq<string>, receipt: seq<Field>)
    requires DistinctNames(receipt) && HasRequired(names, receipt)
    requires AllDistinct(names)
    requires forall name :: name in names ==> !IsIndex(name) && name != PROTO
    ensures TypeScriptText(receipt) == PythonText(Projected(names, receipt))
            <==> PlainFields(Signable(receipt)) && Covers(names, receipt)
  {
    var dump := Projected(names, receipt);
    SignableIsDistinct(receipt);
    SignableIsDistinct(dump);
    TypeScriptSortsSignable(receipt);
    PythonSortsOnce(dump);
    var us, ps := Sort(CodeUnits, Signable(receipt)), Sort(CodePoints, WithoutSignature(dump));
    WritersAgree(Enumerate(us), ps);
    EnumerateKeepsFields(us);
    if PlainFields(Signable(receipt)) && Covers(names, receipt) {
      CoveredIsTheDump(names, receipt);
      NoIndicesAreKept(us);
      PlainSortsAgree(Signable(receipt));
      SortsAlike(CodePoints, Signable(receipt), WithoutSignature(dump));
    }
    if TypeScriptText(receipt) == PythonText(dump) {
      assert forall f :: f in Signable(receipt) <==> f in us;
      assert forall f :: f in WithoutSignature(dump) <==> f in ps;
      TheDumpIsCovered(names, receipt);
    }
  }

  lemma OptionalNames(m: Model)
    ensures forall name :: name in ModelNames(m) && IsOptional(name) <==>
              || name == "reason"
              || (m == StatusResponse && (name == "discovery_url" || name == "receipt" || name == "extensions"))
  {
    assert ModelNames(m)[7] == "reason";
    if m == StatusResponse {
      assert ModelNames(m)[13] == "discovery_url";
      assert ModelNames(m)[14] == "receipt";
      assert ModelNames(m)[15] == "extensions";
    }
    ModelNamesAreDistinct(m);
  }

  lemma CoveringHasTheSameText(m: Model, receipt: seq<Field>)
    requires DistinctNames(receipt) && Validates(m, receipt)
    ensures TypeScriptText(receipt) == PythonText(ModelDump(m, receipt))
            <==> PlainFields(Signable(receipt)) && Covers(ModelNames(m), receipt)
  {
    ModelNamesAreDistinct(m);
    forall name | name in ModelNames(m)
      ensures !IsIndex(name) && name != PROTO
    {
      ModelNamesAreOrdinary(m, name);
    }
    ProjectionHasTheSameText(ModelNames(m), receipt);
  }

  /** The receipt has every optional field of its model, and none that counts and is not of the model. */
  predicate Complete(m: Model, receipt: seq<Field>) {
    && (forall f :: f in Signable(receipt) ==> f.name in ModelNames(m))
    && Has(receipt, "reason")
    && (m == StatusResponse ==> Has(receipt, "discovery_url") && Has(receipt, "receipt") && Has(receipt, "extensions"))
  }

  lemma CompleteIsCovering(m: Model, receipt: seq<Field>)
    ensures Complete(m, receipt) <==> Covers(ModelNames(m), receipt)
  {
    OptionalNames(m);
  }

  /**
   Main result: a receipt checked through its Python model is checked against the
   text that TypeScript builds exactly when it is plain, carries every optional
   field of the model, and carries no field that the model does not know.
   */
  lemma ModelChecksTheSameText(m: Model, receipt: seq<Field>)
    requires DistinctNames(receipt) && Validates(m, receipt)
    ensures TypeScriptText(receipt) == PythonText(ModelDump(m, receipt))
            <==> PlainFields(Signable(receipt)) && Complete(m, receipt)
  {
    CompleteIsCovering(m, receipt);
    CoveringHasTheSameText(m, receipt);
  }

  // ----- one receipt for each way to fail -----

  function SampleValue(name: string): Option<string> {
    if name == "receipt" || name == "extensions" then None
    else if name == "status" then Some("OPEN")
    else if name == "source" then Some("SCHEDULE")
    else if name == "receipt_mode" then Some("live")
    else Some("x")
  }

  function Sample(names: seq<string>): (r: seq<Field>)
    ensures |r| == |names| && forall i :: 0 <= i < |r| ==> r[i] == Field(names[i], SampleValue(names[i]))
  {
    if names == [] then [] else [Field(names[0], SampleValue(names[0]))] + Sample(names[1..])
  }

  lemma SampleFits(names: seq<string>, more: seq<Field>)
    requires AllDistinct(names) && |more| <= 1 && forall f :: f in more ==> f.name !in names
    ensures DistinctNames(Sample(names) + more) && Fits(names, Sample(names) + more)
    ensures forall name :: Has(Sample(names) + more, name) <==> name in names || Has(more, name)
  {
    var sample := Sample(names);
    forall name | name in names
      ensures Has(sample + more, name)
    {
      var i :| 0 <= i < |names| && names[i] == name;
      assert (sample + more)[i].name == name;
    }
    forall f | f in sample
      ensures f.name in names && Admits(f.name, f.value)
    {
      var i :| 0 <= i < |sample| && sample[i] == f;
    }
  }

  /** One field more, and the model drops what TypeScript signs. */
  lemma ExtraFieldPartsTheModel(m: Model)
    ensures var receipt := Sample(ModelNames(m)) + [Field("note", Some("x"))];
            && DistinctNames(receipt) && Validates(m, receipt)
            && TypeScriptText(receipt) != PythonText(ModelDump(m, receipt))
  {
    var extra := Field("note", Some("x"));
    var receipt := Sample(ModelNames(m)) + [extra];
    ModelNamesAreDistinct(m);
    assert "note" !in ModelNames(m);
    SampleFits(ModelNames(m), [extra]);
    assert extra in Signable(receipt);
    ModelChecksTheSameText(m, receipt);
  }

  lemma FitsMore(names: seq<string>, more: seq<string>, receipt: seq<Field>)
    requires Fits(names, receipt) && forall name :: name in more ==> IsOptional(name) && !Has(receipt, name)
    ensures Fits(names + more, receipt)
  {
  }

  lemma MissingNullParts(names: seq<string>, more: seq<string>, receipt: seq<Field>, name: string)
    requires DistinctNames(receipt) && Fits(names + more, receipt) && AllDistinct(names + more)
    requires forall n :: n in names + more ==> !IsIndex(n) && n != PROTO
    requires name in more && IsOptional(name) && !Has(receipt, name)
    ensures TypeScriptText(receipt) != PythonText(Projected(names + more, receipt))
  {
    ProjectionHasTheSameText(names + more, receipt);
    assert name in names + more;
  }

  const WRAPPER := ["discovery_url", "receipt", "extensions"]

  lemma StatusResponseHasMore()
    ensures ModelNames(StatusResponse) == ModelNames(SignedReceipt) + WRAPPER
    ensures forall name :: name in WRAPPER ==> IsOptional(name) && name !in ModelNames(SignedReceipt)
  {
  }

  /** A whole signed receipt read as a StatusResponse gains three nulls, `reason` or not. */
  lemma StatusResponseAddsNulls()
    ensures var receipt := Sample(ModelNames(SignedReceipt));
            && DistinctNames(receipt) && Validates(StatusResponse, receipt)
            && TypeScriptText(receipt) != PythonText(ModelDump(StatusResponse, receipt))
  {
    var names := ModelNames(SignedReceipt);
    var receipt := Sample(names);
    ModelNamesAreDistinct(SignedReceipt);
    ModelNamesAreDistinct(StatusResponse);
    SampleFits(names, []);
    assert receipt + [] == receipt;
    StatusResponseHasMore();
    FitsMore(names, WRAPPER, receipt);
    forall name | name in ModelNames(StatusResponse)
      ensures !IsIndex(name) && name != PROTO
    {
      ModelNamesAreOrdinary(StatusResponse, name);
    }
    MissingNullParts(names, WRAPPER, receipt, WRAPPER[0]);
  }
}
