/**
 The text whose signature the two SDKs check: a receipt without its signature, its
 fields sorted by name, in compact JSON. `verifyOffline` and `verify_offline` build
 it independently; the receipt is a flat object of strings and nulls, in any order.
 */
module CanonicalPayload {
  import opened Options
  import opened JsonText

  const SIGNATURE := "signature"

  /** Assigning to the property of this name sets the prototype of a JavaScript object. */
  const PROTO := "__proto__"

  predicate DistinctNames(fs: seq<Field>) {
    forall i, j :: 0 <= i < j < |fs| ==> fs[i].name != fs[j].name
  }

  // ----- orders on names -----

  /**
   JavaScript sorts strings by UTF-16 code unit, Python by code point; the keys of
   a JavaScript object that are array indices come out in numeric order.
   */
  datatype Order = CodeUnits | CodePoints | Numeric

  /**
   Where a character stands. By code unit, the surrogates that spell the
   characters past U+FFFF come before U+E000.
   */
  function Rank(o: Order, c: char): int {
    var n := c as int;
    if o.CodeUnits? && 0xE000 <= n < 0x10000 then n + 0x110000 else n
  }

  predicate Lex(o: Order, a: string, b: string) {
    b != "" && (a == "" ||
                Rank(o, a[0]) < Rank(o, b[0]) ||
                (a[0] == b[0] && Lex(o, a[1..], b[1..])))
  }

  predicate Less(o: Order, a: string, b: string) {
    if o.Numeric? && |a| != |b| then |a| < |b| else Lex(o, a, b)
  }

  lemma {:induction false} LexIsOrder(o: Order, a: string, b: string, c: string)
    ensures !Lex(o, a, a)
    ensures a == b || Lex(o, a, b) || Lex(o, b, a)
    ensures Lex(o, a, b) && Lex(o, b, c) ==> Lex(o, a, c)
  {
    if a == "" {
    } else if b == "" {
      LexIsOrder(o, a[1..], b, c);
    } else {
      LexIsOrder(o, a[1..], b[1..], if c == "" then c else c[1..]);
      assert a == [a[0]] + a[1..] && b == [b[0]] + b[1..];
    }
  }

  lemma LessIsOrder(o: Order, a: string, b: string, c: string)
    ensures !Less(o, a, a)
    ensures a == b || Less(o, a, b) || Less(o, b, a)
    ensures Less(o, a, b) && Less(o, b, c) ==> Less(o, a, c)
  {
    LexIsOrder(o, a, b, c);
  }

  // ----- sorting -----

  predicate Sorted(o: Order, fs: seq<Field>) {
    forall i, j :: 0 <= i < j < |fs| ==> Less(o, fs[i].name, fs[j].name)
  }

  function Insert(o: Order, f: Field, fs: seq<Field>): (r: seq<Field>)
    ensures forall g :: g in r <==> g == f || g in fs
    ensures |r| == |fs| + 1
  {
    if fs == [] || Less(o, f.name, fs[0].name) then [f] + fs
    else
      var r := Insert(o, f, fs[1..]);
      assert forall g :: g in fs <==> g == fs[0] || g in fs[1..];
      [fs[0]] + r
  }

  function Sort(o: Order, fs: seq<Field>): (r: seq<Field>)
    ensures forall g :: g in r <==> g in fs
  {
    if fs == [] then [] else Insert(o, fs[0], Sort(o, fs[1..]))
  }

  /** A name that JavaScript takes for an array index: a canonical numeral below 2^32 - 1. */
  predicate IsIndex(name: string) {
    && name != ""
    && (forall i :: 0 <= i < |name| ==> '0' <= name[i] <= '9')
    && (name[0] == '0' ==> name == "0")
    && Less(Numeric, name, "4294967295")
  }

  /** The fields that the worker puts around a signed receipt. */
  predicate IsWrapper(name: string) {
    name == "discovery_url" || name == "receipt" || name == "extensions"
  }

  /** The fields that a pass over the receipt is after. */
  datatype Kind = Unsigned | Assigned | Unwrapped | Indexed | NotIndexed

  predicate Keeps(kind: Kind, f: Field) {
    match kind
    case Unsigned => f.name != SIGNATURE
    case Assigned => f.name != PROTO
    case Unwrapped => !IsWrapper(f.name)
    case Indexed => IsIndex(f.name)
    case NotIndexed => !IsIndex(f.name)
  }

  function Filter(kind: Kind, fs: seq<Field>): (r: seq<Field>)
    ensures forall g :: g in r <==> g in fs && Keeps(kind, g)
  {
    if fs == [] then [] else (if Keeps(kind, fs[0]) then [fs[0]] else []) + Filter(kind, fs[1..])
  }

  function WithoutSignature(fs: seq<Field>): seq<Field> {
    Filter(Unsigned, fs)
  }

  /** The order in which JavaScript lists the properties of an object filled in the order of `fs`. */
  function Enumerate(fs: seq<Field>): seq<Field> {
    Sort(Numeric, Filter(Indexed, fs)) + Filter(NotIndexed, fs)
  }

  /** What `JSON.stringify` writes of an object whose properties were assigned in the order of `fs`. */
  function AssignedText(fs: seq<Field>): string {
    Object(Stringify, Enumerate(Filter(Assigned, fs)))
  }

  function TypeScriptText(receipt: seq<Field>): string {
    AssignedText(Sort(CodeUnits, WithoutSignature(receipt)))
  }

  /** `sorted(r.items())` first, and `sort_keys` again. */
  function PythonText(receipt: seq<Field>): string {
    Object(Dumps, Sort(CodePoints, WithoutSignature(Sort(CodePoints, receipt))))
  }

  // ----- what sorting and filtering do -----

  lemma {:induction false} InsertSorts(o: Order, f: Field, fs: seq<Field>)
    requires Sorted(o, fs) && forall g :: g in fs ==> g.name != f.name
    ensures Sorted(o, Insert(o, f, fs))
  {
    if fs == [] {
    } else if Less(o, f.name, fs[0].name) {
      forall j | 0 <= j < |fs|
        ensures Less(o, f.name, fs[j].name)
      {
        LessIsOrder(o, f.name, fs[0].name, fs[j].name);
      }
    } else {
      var r := Insert(o, f, fs[1..]);
      assert fs[0] in fs;
      LessIsOrder(o, f.name, fs[0].name, f.name);
      InsertSorts(o, f, fs[1..]);
      forall j | 0 <= j < |r|
        ensures Less(o, fs[0].name, r[j].name)
      {
        assert r[j] == f || r[j] in fs[1..];
      }
    }
  }

  lemma {:induction false} SortSorts(o: Order, fs: seq<Field>)
    requires DistinctNames(fs)
    ensures Sorted(o, Sort(o, fs))
  {
    if fs == [] {
    } else {
      SortSorts(o, fs[1..]);
      InsertSorts(o, fs[0], Sort(o, fs[1..]));
    }
  }

  lemma SortedIsDistinct(o: Order, fs: seq<Field>)
    requires Sorted(o, fs)
    ensures DistinctNames(fs)
  {
    forall i, j | 0 <= i < j < |fs|
      ensures fs[i].name != fs[j].name
    {
      LessIsOrder(o, fs[i].name, fs[j].name, "");
    }
  }

  lemma {:induction false} FilterKeepsDistinct(kind: Kind, fs: seq<Field>)
    requires DistinctNames(fs)
    ensures DistinctNames(Filter(kind, fs))
  {
    if fs == [] {
    } else {
      var rest := Filter(kind, fs[1..]);
      FilterKeepsDistinct(kind, fs[1..]);
      forall j | 0 <= j < |rest|
        ensures rest[j].name != fs[0].name
      {
        assert rest[j] in fs[1..];
      }
    }
  }

  lemma {:induction false} FilterKeepsSorted(o: Order, kind: Kind, fs: seq<Field>)
    requires Sorted(o, fs)
    ensures Sorted(o, Filter(kind, fs))
  {
    if fs == [] {
    } else {
      var rest := Filter(kind, fs[1..]);
      FilterKeepsSorted(o, kind, fs[1..]);
      forall j | 0 <= j < |rest|
        ensures Less(o, fs[0].name, rest[j].name)
      {
        assert rest[j] in fs[1..];
      }
    }
  }

  lemma {:induction false} FilterAppends(kind: Kind, fs: seq<Field>, f: Field)
    ensures Filter(kind, fs + [f]) == Filter(kind, fs) + if Keeps(kind, f) then [f] else []
  {
    if fs == [] {
      assert [] + [f] == [f] && [f][1..] == [];
    } else {
      assert (fs + [f])[1..] == fs[1..] + [f];
      FilterAppends(kind, fs[1..], f);
    }
  }

  predicate AllKept(kind: Kind, fs: seq<Field>) {
    forall i :: 0 <= i < |fs| ==> Keeps(kind, fs[i])
  }

  lemma {:induction false} KeepsAll(kind: Kind, fs: seq<Field>)
    requires AllKept(kind, fs)
    ensures Filter(kind, fs) == fs
  {
    if fs == [] {
    } else {
      assert fs == [fs[0]] + fs[1..];
      KeepsAll(kind, fs[1..]);
    }
  }

  predicate SameFields(fs: seq<Field>, gs: seq<Field>) {
    (forall f :: f in fs ==> f in gs) && (forall g :: g in gs ==> g in fs)
  }

  /** A set of fields has one sorted listing. */
  lemma {:induction false} SortedListingIsUnique(o: Order, fs: seq<Field>, gs: seq<Field>)
    requires Sorted(o, fs) && Sorted(o, gs) && SameFields(fs, gs)
    ensures fs == gs
  {
    if fs == [] {
      EmptyOrHeaded(gs);
    } else {
      assert fs[0] in gs && gs != [] && gs[0] in fs;
      var i :| 0 <= i < |gs| && gs[i] == fs[0];
      var j :| 0 <= j < |fs| && fs[j] == gs[0];
      LessIsOrder(o, fs[0].name, gs[0].name, fs[0].name);
      assert fs[0] == gs[0];
      HeadNotInTail(o, fs);
      HeadNotInTail(o, gs);
      assert fs == [fs[0]] + fs[1..] && gs == [gs[0]] + gs[1..];
      assert forall f :: f in fs <==> f == fs[0] || f in fs[1..];
      assert forall g :: g in gs <==> g == gs[0] || g in gs[1..];
      SortedListingIsUnique(o, fs[1..], gs[1..]);
    }
  }

  lemma EmptyOrHeaded(gs: seq<Field>)
    ensures gs == [] || gs[0] in gs
  {
  }

  lemma HeadNotInTail(o: Order, fs: seq<Field>)
    requires Sorted(o, fs) && fs != []
    ensures fs[0] !in fs[1..]
  {
    LessIsOrder(o, fs[0].name, fs[0].name, "");
  }

  lemma SortsAlike(o: Order, fs: seq<Field>, gs: seq<Field>)
    requires DistinctNames(fs) && DistinctNames(gs) && SameFields(fs, gs)
    ensures Sort(o, fs) == Sort(o, gs)
  {
    SortSorts(o, fs);
    SortSorts(o, gs);
    SortedListingIsUnique(o, Sort(o, fs), Sort(o, gs));
  }

  // ----- the text depends on the fields alone, and tells them -----

  /** The fields that reach the TypeScript text: no signature, and nothing under the name of the prototype. */
  function Signable(receipt: seq<Field>): seq<Field> {
    Filter(Assigned, WithoutSignature(receipt))
  }

  lemma SignableIsDistinct(receipt: seq<Field>)
    requires DistinctNames(receipt)
    ensures DistinctNames(WithoutSignature(receipt)) && DistinctNames(Signable(receipt))
  {
    FilterKeepsDistinct(Unsigned, receipt);
    FilterKeepsDistinct(Assigned, WithoutSignature(receipt));
  }

  /** Dropping the prototype while assigning comes to the same as never having had it. */
  lemma TypeScriptSortsSignable(receipt: seq<Field>)
    requires DistinctNames(receipt)
    ensures TypeScriptText(receipt) == Object(Stringify, Enumerate(Sort(CodeUnits, Signable(receipt))))
  {
    var payload := WithoutSignature(receipt);
    SignableIsDistinct(receipt);
    SortSorts(CodeUnits, payload);
    FilterKeepsSorted(CodeUnits, Assigned, Sort(CodeUnits, payload));
    SortSorts(CodeUnits, Signable(receipt));
    SortedListingIsUnique(CodeUnits, Filter(Assigned, Sort(CodeUnits, payload)), Sort(CodeUnits, Signable(receipt)));
  }

  /** Sorting before the signature is dropped makes no difference. */
  lemma PythonSortsOnce(receipt: seq<Field>)
    requires DistinctNames(receipt)
    ensures PythonText(receipt) == Object(Dumps, Sort(CodePoints, WithoutSignature(receipt)))
  {
    var sorted := Sort(CodePoints, receipt);
    SortSorts(CodePoints, receipt);
    SortedIsDistinct(CodePoints, sorted);
    FilterKeepsDistinct(Unsigned, sorted);
    FilterKeepsDistinct(Unsigned, receipt);
    SortsAlike(CodePoints, WithoutSignature(sorted), WithoutSignature(receipt));
  }

  lemma EnumerateKeepsFields(fs: seq<Field>)
    ensures forall f :: f in Enumerate(fs) <==> f in fs
  {
  }

  /** Of two listings in the order of assignment the text tells the fields, those under the prototype's name aside. */
  lemma AssignedTextTells(fs: seq<Field>, gs: seq<Field>)
    requires Sorted(CodeUnits, fs) && Sorted(CodeUnits, gs)
    ensures AssignedText(fs) == AssignedText(gs) <==> SameFields(Filter(Assigned, fs), Filter(Assigned, gs))
  {
    FilterKeepsSorted(CodeUnits, Assigned, fs);
    FilterKeepsSorted(CodeUnits, Assigned, gs);
    if SameFields(Filter(Assigned, fs), Filter(Assigned, gs)) {
      SortedListingIsUnique(CodeUnits, Filter(Assigned, fs), Filter(Assigned, gs));
    }
    ObjectRoundTrip(Stringify, Enumerate(Filter(Assigned, fs)));
    ObjectRoundTrip(Stringify, Enumerate(Filter(Assigned, gs)));
    EnumerateKeepsFields(Filter(Assigned, fs));
    EnumerateKeepsFields(Filter(Assigned, gs));
  }

  /**
   Main result for TypeScript: two receipts have the same canonical text exactly
   when they have the same fields, in whatever order, the signature and a field
   named `__proto__` aside.
   */
  lemma TypeScriptTextTellsFields(receipt: seq<Field>, receipt': seq<Field>)
    requires DistinctNames(receipt) && DistinctNames(receipt')
    ensures TypeScriptText(receipt) == TypeScriptText(receipt') <==> SameFields(Signable(receipt), Signable(receipt'))
  {
    SignableIsDistinct(receipt);
    SignableIsDistinct(receipt');
    SortSorts(CodeUnits, WithoutSignature(receipt));
    SortSorts(CodeUnits, WithoutSignature(receipt'));
    AssignedTextTells(Sort(CodeUnits, WithoutSignature(receipt)), Sort(CodeUnits, WithoutSignature(receipt')));
  }

  /** Main result for Python, where only the signature is aside. */
  lemma PythonTextTellsFields(receipt: seq<Field>, receipt': seq<Field>)
    requires DistinctNames(receipt) && DistinctNames(receipt')
    ensures PythonText(receipt) == PythonText(receipt')
            <==> SameFields(WithoutSignature(receipt), WithoutSignature(receipt'))
  {
    var payload, payload' := WithoutSignature(receipt), WithoutSignature(receipt');
    PythonSortsOnce(receipt);
    PythonSortsOnce(receipt');
    if SameFields(payload, payload') {
      FilterKeepsDistinct(Unsigned, receipt);
      FilterKeepsDistinct(Unsigned, receipt');
      SortsAlike(CodePoints, payload, payload');
    }
    ObjectRoundTrip(Dumps, Sort(CodePoints, payload));
    ObjectRoundTrip(Dumps, Sort(CodePoints, payload'));
  }

  lemma OneMoreName(fs: seq<Field>, f: Field)
    requires DistinctNames(fs) && forall g :: g in fs ==> g.name != f.name
    ensures DistinctNames(fs + [f])
  {
    forall i | 0 <= i < |fs|
      ensures fs[i].name != f.name
    {
      assert fs[i] in fs;
    }
  }

  /** So a receipt may carry anything under that name, for TypeScript but not for Python. */
  lemma ProtoFieldIsNotSigned(receipt: seq<Field>, value: Option<string>)
    requires DistinctNames(receipt) && forall f :: f in receipt ==> f.name != PROTO
    ensures TypeScriptText(receipt + [Field("__proto__", value)]) == TypeScriptText(receipt)
    ensures PythonText(receipt + [Field("__proto__", value)]) != PythonText(receipt)
  {
    var more := receipt + [Field(PROTO, value)];
    OneMoreName(receipt, Field(PROTO, value));
    assert forall f :: f in more <==> f in receipt || f == Field(PROTO, value);
    TypeScriptTextTellsFields(more, receipt);
    PythonTextTellsFields(more, receipt);
    assert Field(PROTO, value) in WithoutSignature(more);
  }

  /** The smallest case: an object with that one field has the text of the empty object. */
  lemma LoneProtoFieldIsEmpty()
    ensures TypeScriptText([Field("__proto__", Some("x"))]) == "{}" != PythonText([Field("__proto__", Some("x"))])
  {
    ProtoFieldIsNotSigned([], Some("x"));
    assert [] + [Field(PROTO, Some("x"))] == [Field(PROTO, Some("x"))];
    assert Sort(Numeric, []) + [] == [] && WithoutSignature(Sort(CodePoints, [])) == [];
  }

  // ----- the loop of verifyOffline -----

  function ValueOf(fs: seq<Field>, name: string): Option<string>
    requires exists f :: f in fs && f.name == name
  {
    if fs[0].name == name then fs[0].value else ValueOf(fs[1..], name)
  }

  lemma {:induction false} ValueOfField(fs: seq<Field>, f: Field)
    requires DistinctNames(fs) && f in fs
    ensures ValueOf(fs, f.name) == f.value
  {
    if fs[0] == f {
    } else {
      ValueOfField(fs[1..], f);
    }
  }

  function Names(fs: seq<Field>): (r: seq<string>)
    ensures |r| == |fs| && forall i :: 0 <= i < |fs| ==> r[i] == fs[i].name
  {
    if fs == [] then [] else [fs[0].name] + Names(fs[1..])
  }

  /** `sorted[name] = value` for a name that the object does not have yet. */
  function Assign(properties: seq<Field>, name: string, value: Option<string>): seq<Field> {
    if name == PROTO then properties else properties + [Field(name, value)]
  }

  lemma AssignsNext(fs: seq<Field>, i: nat)
    requires i < |fs|
    ensures Filter(Assigned, fs[..i + 1]) == Assign(Filter(Assigned, fs[..i]), fs[i].name, fs[i].value)
  {
    FilterAppends(Assigned, fs[..i], fs[i]);
    assert fs[..i] + [fs[i]] == fs[..i + 1];
    assert fs[i] == Field(fs[i].name, fs[i].value);
  }

  /** `Object.keys(payload).sort()`, then one assignment to `sorted` per key. */
  method CanonicalText(receipt: seq<Field>) returns (canonical: string)
    requires DistinctNames(receipt)
    ensures canonical == TypeScriptText(receipt)
  {
    var payload := WithoutSignature(receipt);
    FilterKeepsDistinct(Unsigned, receipt);
    var inOrder := Sort(CodeUnits, payload);
    var keys := Names(inOrder);
    var sorted := [];
    for i := 0 to |keys|
      invariant sorted == Filter(Assigned, inOrder[..i])
    {
      assert inOrder[i] in inOrder;
      ValueOfField(payload, inOrder[i]);
      AssignsNext(inOrder, i);
      sorted := Assign(sorted, keys[i], ValueOf(payload, keys[i]));
    }
    assert inOrder[..|keys|] == inOrder;
    canonical := Object(Stringify, Enumerate(sorted));
  }
}
