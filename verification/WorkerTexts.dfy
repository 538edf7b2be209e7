/**
 The texts that the worker builds: `signPayload` when it issues a receipt, and
 `verifyReceiptLogic` when /v5/verify checks one. The SDKs check neither of them by
 construction; this says when they do.
 */
module WorkerTexts {
  import opened Options
  import opened JsonText
  import opened CanonicalPayload
  import opened CanonicalAgreement

  predicate AllStrings(fs: seq<Field>) {
    forall f :: f in fs ==> f.value.Some?
  }

  /** What `signPayload` signs; it throws on a value that is no string. */
  function SignedText(payload: seq<Field>): Option<string> {
    if AllStrings(payload) then Some(AssignedText(Sort(CodeUnits, payload))) else None
  }

  /** `String(v)`. */
  function Coerce(f: Field): Field {
    Field(f.name, Some(f.value.GetOr("null")))
  }

  function Coerced(fs: seq<Field>): (r: seq<Field>)
    ensures |r| == |fs|
  {
    if fs == [] then [] else [Coerce(fs[0])] + Coerced(fs[1..])
  }

  /** What `verifyReceiptLogic` checks the signature of. */
  function WorkerText(receipt: seq<Field>): string {
    AssignedText(Coerced(Filter(Unwrapped, Sort(CodeUnits, WithoutSignature(receipt)))))
  }

  // ----- the two loops -----

  lemma SortKeepsStrings(payload: seq<Field>)
    ensures AllStrings(Sort(CodeUnits, payload)) <==> AllStrings(payload)
  {
  }

  lemma StringsNext(fs: seq<Field>, i: nat)
    requires i < |fs| && AllStrings(fs[..i]) && fs[i].value.Some?
    ensures AllStrings(fs[..i + 1])
  {
    assert fs[..i + 1] == fs[..i] + [fs[i]];
  }

  lemma SignsNext(payload: seq<Field>, i: nat)
    requires DistinctNames(payload) && i < |Sort(CodeUnits, payload)|
    ensures var inOrder := Sort(CodeUnits, payload);
            var f := inOrder[i];
            && f in payload && ValueOf(payload, f.name) == f.value
            && Filter(Assigned, inOrder[..i + 1]) == Assign(Filter(Assigned, inOrder[..i]), f.name, f.value)
  {
    var inOrder := Sort(CodeUnits, payload);
    assert inOrder[i] in inOrder;
    ValueOfField(payload, inOrder[i]);
    AssignsNext(inOrder, i);
  }

  /** The canonical text of `signPayload`, or None when it throws. */
  method CanonicalToSign(payload: seq<Field>) returns (canonical: Option<string>)
    requires DistinctNames(payload)
    ensures canonical == SignedText(payload)
  {
    var inOrder := Sort(CodeUnits, payload);
    var keys := Names(inOrder);
    var sorted := [];
    for i := 0 to |keys|
      invariant sorted == Filter(Assigned, inOrder[..i])
      invariant AllStrings(inOrder[..i])
    {
      SignsNext(payload, i);
      var v := ValueOf(payload, keys[i]);
      if v == None {
        return None;
      }
      StringsNext(inOrder, i);
      sorted := Assign(sorted, keys[i], v);
    }
    assert inOrder[..|keys|] == inOrder;
    SortKeepsStrings(payload);
    canonical := Some(Object(Stringify, Enumerate(sorted)));
  }

  lemma {:induction false} CoercedAppends(fs: seq<Field>, f: Field)
    ensures Coerced(fs + [f]) == Coerced(fs) + [Coerce(f)]
  {
    if fs == [] {
      assert [] + [f] == [f] && [f][1..] == [];
    } else {
      assert (fs + [f])[1..] == fs[1..] + [f];
      CoercedAppends(fs[1..], f);
    }
  }

  /** One round of the loop: nothing for a wrapper field, otherwise one assignment. */
  lemma ChecksNext(fs: seq<Field>, i: nat)
    requires i < |fs|
    ensures var before := Filter(Assigned, Coerced(Filter(Unwrapped, fs[..i])));
            Filter(Assigned, Coerced(Filter(Unwrapped, fs[..i + 1])))
            == if IsWrapper(fs[i].name) then before else Assign(before, fs[i].name, Coerce(fs[i]).value)
  {
    FilterAppends(Unwrapped, fs[..i], fs[i]);
    assert fs[..i] + [fs[i]] == fs[..i + 1];
    var unwrapped := Filter(Unwrapped, fs[..i]);
    if IsWrapper(fs[i].name) {
      assert unwrapped + [] == unwrapped;
    } else {
      CoercedAppends(unwrapped, fs[i]);
      FilterAppends(Assigned, Coerced(unwrapped), Coerce(fs[i]));
    }
  }

  /** The canonical text of `verifyReceiptLogic`. */
  method CanonicalToVerify(receipt: seq<Field>) returns (canonical: string)
    requires DistinctNames(receipt)
    ensures canonical == WorkerText(receipt)
  {
    var rest := WithoutSignature(receipt);
    FilterKeepsDistinct(Unsigned, receipt);
    var inOrder := Sort(CodeUnits, rest);
    var keys := Names(inOrder);
    var payload := [];
    for i := 0 to |keys|
      invariant payload == Filter(Assigned, Coerced(Filter(Unwrapped, inOrder[..i])))
    {
      SignsNext(rest, i);
      ChecksNext(inOrder, i);
      if !IsWrapper(keys[i]) {
        payload := Assign(payload, keys[i], Some(ValueOf(rest, keys[i]).GetOr("null")));
      }
    }
    assert inOrder[..|keys|] == inOrder;
    canonical := Object(Stringify, Enumerate(payload));
  }

  // ----- what each of them takes for the fields -----

  /** The fields that /v5/verify sees in a receipt. */
  function Checked(receipt: seq<Field>): seq<Field> {
    Coerced(Filter(Unwrapped, Signable(receipt)))
  }

  lemma {:induction false} CoercedAt(fs: seq<Field>, i: nat)
    requires i < |fs|
    ensures Coerced(fs)[i] == Coerce(fs[i])
  {
    if i == 0 {
    } else {
      CoercedAt(fs[1..], i - 1);
    }
  }

  lemma CoercedKeepsSorted(fs: seq<Field>)
    requires Sorted(CodeUnits, fs)
    ensures Sorted(CodeUnits, Coerced(fs))
  {
    forall i | 0 <= i < |fs|
      ensures Coerced(fs)[i].name == fs[i].name
    {
      CoercedAt(fs, i);
    }
  }

  lemma CoercedHolds(fs: seq<Field>, f: Field)
    ensures f in Coerced(fs) <==> exists g :: g in fs && f == Coerce(g)
  {
    if f in Coerced(fs) {
      var i :| 0 <= i < |fs| && Coerced(fs)[i] == f;
      CoercedAt(fs, i);
      assert fs[i] in fs;
    }
    if g :| g in fs && f == Coerce(g) {
      var i :| 0 <= i < |fs| && fs[i] == g;
      CoercedAt(fs, i);
    }
  }

  lemma CheckedFields(receipt: seq<Field>)
    requires DistinctNames(receipt)
    ensures var listed := Coerced(Filter(Unwrapped, Sort(CodeUnits, WithoutSignature(receipt))));
            Sorted(CodeUnits, listed) && SameFields(Filter(Assigned, listed), Checked(receipt))
  {
    var inOrder := Sort(CodeUnits, WithoutSignature(receipt));
    FilterKeepsDistinct(Unsigned, receipt);
    SortSorts(CodeUnits, WithoutSignature(receipt));
    FilterKeepsSorted(CodeUnits, Unwrapped, inOrder);
    CoercedKeepsSorted(Filter(Unwrapped, inOrder));
    forall f
      ensures f in Filter(Assigned, Coerced(Filter(Unwrapped, inOrder))) <==> f in Checked(receipt)
    {
      CoercedHolds(Filter(Unwrapped, inOrder), f);
      CoercedHolds(Filter(Unwrapped, Signable(receipt)), f);
    }
  }

  lemma SameAsEither(fs: seq<Field>, fs': seq<Field>, gs: seq<Field>, gs': seq<Field>)
    requires SameFields(fs, fs') && SameFields(gs, gs')
    ensures SameFields(fs, gs) <==> SameFields(fs', gs')
  {
  }

  /** Two sorted listings have one text exactly when what is assigned of `fs` and `gs` is the same. */
  lemma ListingsHaveOneText(listed: seq<Field>, fs: seq<Field>, listed': seq<Field>, gs: seq<Field>)
    requires Sorted(CodeUnits, listed) && SameFields(Filter(Assigned, listed), fs)
    requires Sorted(CodeUnits, listed') && SameFields(Filter(Assigned, listed'), gs)
    ensures AssignedText(listed) == AssignedText(listed') <==> SameFields(fs, gs)
  {
    AssignedTextTells(listed, listed');
    SameAsEither(Filter(Assigned, listed), fs, Filter(Assigned, listed'), gs);
  }

  lemma ListedFields(payload: seq<Field>)
    requires DistinctNames(payload)
    ensures Sorted(CodeUnits, Sort(CodeUnits, payload))
    ensures SameFields(Filter(Assigned, Sort(CodeUnits, payload)), Filter(Assigned, payload))
  {
    SortSorts(CodeUnits, payload);
  }

  /**
   Main result: when the worker has signed `issued`, the SDK checks that very text
   for exactly the receipts with the issued fields and no more, and /v5/verify for
   exactly those that have them once the wrapper fields are dropped and null is
   read as the string. A field named `__proto__` counts for neither.
   */
  lemma WhoChecksWhatWasSigned(issued: seq<Field>, receipt: seq<Field>)
    requires DistinctNames(issued) && DistinctNames(receipt) && AllStrings(issued)
    ensures SignedText(issued) == Some(TypeScriptText(receipt))
            <==> SameFields(Filter(Assigned, issued), Signable(receipt))
    ensures SignedText(issued) == Some(WorkerText(receipt))
            <==> SameFields(Filter(Assigned, issued), Checked(receipt))
  {
    var payload := WithoutSignature(receipt);
    FilterKeepsDistinct(Unsigned, receipt);
    ListedFields(issued);
    ListedFields(payload);
    CheckedFields(receipt);
    var listed := Sort(CodeUnits, issued);
    ListingsHaveOneText(listed, Filter(Assigned, issued), Sort(CodeUnits, payload), Signable(receipt));
    ListingsHaveOneText(listed, Filter(Assigned, issued),
                        Coerced(Filter(Unwrapped, Sort(CodeUnits, payload))), Checked(receipt));
  }

  lemma ListedAlike(issued: seq<Field>, payload: seq<Field>)
    requires DistinctNames(issued) && DistinctNames(payload)
    requires SameFields(Filter(Assigned, issued), payload) && PlainFields(payload)
    ensures Filter(Assigned, Sort(CodeUnits, issued)) == Sort(CodePoints, payload)
  {
    var listed := Filter(Assigned, Sort(CodeUnits, issued));
    ListedFields(issued);
    FilterKeepsSorted(CodeUnits, Assigned, Sort(CodeUnits, issued));
    SortSorts(CodeUnits, payload);
    SortedListingIsUnique(CodeUnits, listed, Sort(CodeUnits, payload));
    PlainSortsAgree(payload);
  }

  /**
   The Python SDK checks that very text for exactly the receipts that have the issued
   fields and are portable.
   */
  lemma WhenPythonChecksWhatWasSigned(issued: seq<Field>, receipt: seq<Field>)
    requires DistinctNames(issued) && DistinctNames(receipt) && AllStrings(issued)
    ensures SignedText(issued) == Some(PythonText(receipt))
            <==> SameFields(Filter(Assigned, issued), WithoutSignature(receipt)) && Portable(receipt)
  {
    var payload, listed := WithoutSignature(receipt), Filter(Assigned, Sort(CodeUnits, issued));
    FilterKeepsDistinct(Unsigned, receipt);
    PythonSortsOnce(receipt);
    SortSorts(CodePoints, payload);
    WritersAgree(Enumerate(listed), Sort(CodePoints, payload));
    KeptExactlyInPlace(Sort(CodePoints, payload));
    if SameFields(Filter(Assigned, issued), payload) && Portable(receipt) {
      ListedAlike(issued, payload);
    }
    if Enumerate(listed) == Sort(CodePoints, payload) && PlainFields(Enumerate(listed)) {
      EnumerateKeepsFields(listed);
      assert SameFields(Filter(Assigned, issued), payload) && PlainFields(payload);
      ListedAlike(issued, payload);
    }
  }

  lemma CheckedAreSignable(receipt: seq<Field>)
    ensures SameFields(Checked(receipt), Signable(receipt))
            <==> forall f :: f in Signable(receipt) ==> f.value.Some? && !IsWrapper(f.name)
  {
    var signable := Signable(receipt);
    forall f | f in signable
      ensures f in Checked(receipt) ==> f.value.Some? && !IsWrapper(f.name)
      ensures f.value.Some? && !IsWrapper(f.name) ==> f in Checked(receipt)
    {
      CoercedHolds(Filter(Unwrapped, signable), f);
      assert f.value.Some? ==> Coerce(f) == f;
    }
    if forall f :: f in signable ==> f.value.Some? && !IsWrapper(f.name) {
      forall f | f in Checked(receipt)
        ensures f in signable
      {
        CoercedHolds(Filter(Unwrapped, signable), f);
      }
    }
  }

  /**
   So the SDK and /v5/verify check one text exactly on the receipts without a
   wrapper field and without a null.
   */
  lemma WorkerAgreesWithSdk(receipt: seq<Field>)
    requires DistinctNames(receipt)
    ensures WorkerText(receipt) == TypeScriptText(receipt)
            <==> forall f :: f in Signable(receipt) ==>
                   f.value.Some? && f.name != "discovery_url" && f.name != "receipt" && f.name != "extensions"
  {
    var payload := WithoutSignature(receipt);
    FilterKeepsDistinct(Unsigned, receipt);
    ListedFields(payload);
    CheckedFields(receipt);
    ListingsHaveOneText(Coerced(Filter(Unwrapped, Sort(CodeUnits, payload))), Checked(receipt),
                        Sort(CodeUnits, payload), Signable(receipt));
    CheckedAreSignable(receipt);
  }

  /** What is wrapped around `issued` counts for the SDK, the signature aside, and not for the worker. */
  lemma WrappedFields(issued: seq<Field>, signature: Field, url: Field)
    requires AllStrings(issued)
    requires forall f :: f in issued ==> f.name != SIGNATURE && f.name != PROTO && !IsWrapper(f.name)
    requires signature.name == SIGNATURE && url.name == "discovery_url"
    ensures url in Signable(issued + [signature] + [url])
    ensures SameFields(Filter(Unwrapped, Signable(issued + [signature] + [url])), issued)
  {
    assert forall f :: f in issued + [signature] + [url] <==> f in issued || f == signature || f == url;
  }

  lemma CoercedStrings(fs: seq<Field>, gs: seq<Field>)
    requires SameFields(fs, gs) && AllStrings(gs)
    ensures SameFields(Coerced(fs), gs)
  {
    assert forall f :: f in fs ==> Coerce(f) == f;
    forall f
      ensures f in Coerced(fs) <==> f in gs
    {
      CoercedHolds(fs, f);
    }
  }

  /** With a wrapper field, as in the body of /v5/status, a receipt verifies at the worker and not in the SDK. */
  lemma StatusBodyPartsThem(issued: seq<Field>, signature: Field, url: Field)
    requires DistinctNames(issued) && AllStrings(issued)
    requires forall f :: f in issued ==> f.name != SIGNATURE && f.name != PROTO && !IsWrapper(f.name)
    requires signature.name == SIGNATURE && url.name == "discovery_url"
    ensures SignedText(issued) == Some(WorkerText(issued + [signature] + [url]))
    ensures SignedText(issued) != Some(TypeScriptText(issued + [signature] + [url]))
  {
    OneMoreName(issued, signature);
    OneMoreName(issued + [signature], url);
    WrappedFields(issued, signature, url);
    CoercedStrings(Filter(Unwrapped, Signable(issued + [signature] + [url])), issued);
    WhoChecksWhatWasSigned(issued, issued + [signature] + [url]);
    assert url !in issued;
  }

  /** /v5/verify cannot tell a null from the string of that name, nor any value of a wrapper field from none. */
  lemma WhatTheWorkerCannotTell(fs: seq<Field>, name: string, wrapper: string, value: Option<string>)
    requires DistinctNames(fs) && forall f :: f in fs ==> f.name != name && f.name != wrapper
    requires wrapper == "discovery_url" || wrapper == "receipt" || wrapper == "extensions"
    ensures WorkerText(fs + [Field(name, None)]) == WorkerText(fs + [Field(name, Some("null"))])
    ensures WorkerText(fs + [Field(wrapper, value)]) == WorkerText(fs)
  {
    OneMoreName(fs, Field(name, None));
    OneMoreName(fs, Field(name, Some("null")));
    OneMoreName(fs, Field(wrapper, value));
    CheckedOneMore(fs, Field(name, None));
    CheckedOneMore(fs, Field(name, Some("null")));
    CheckedOneMore(fs, Field(wrapper, value));
    assert Checked(fs) + [] == Checked(fs);
    SameChecked(fs + [Field(name, None)], fs + [Field(name, Some("null"))]);
    SameChecked(fs + [Field(wrapper, value)], fs);
  }

  lemma CheckedOneMore(fs: seq<Field>, f: Field)
    ensures Checked(fs + [f])
            == Checked(fs) + if f.name != SIGNATURE && f.name != PROTO && !IsWrapper(f.name) then [Coerce(f)] else []
  {
    var payload, signable := WithoutSignature(fs), Signable(fs);
    FilterAppends(Unsigned, fs, f);
    if f.name == SIGNATURE {
      assert payload + [] == payload;
      assert Checked(fs) + [] == Checked(fs);
    } else {
      FilterAppends(Assigned, payload, f);
      if f.name == PROTO {
        assert signable + [] == signable;
        assert Checked(fs) + [] == Checked(fs);
      } else {
        FilterAppends(Unwrapped, signable, f);
        if IsWrapper(f.name) {
          assert Filter(Unwrapped, signable) + [] == Filter(Unwrapped, signable);
          assert Checked(fs) + [] == Checked(fs);
        } else {
          CoercedAppends(Filter(Unwrapped, signable), f);
        }
      }
    }
  }

  lemma SameChecked(receipt: seq<Field>, receipt': seq<Field>)
    requires DistinctNames(receipt) && DistinctNames(receipt') && Checked(receipt) == Checked(receipt')
    ensures WorkerText(receipt) == WorkerText(receipt')
  {
    CheckedFields(receipt);
    CheckedFields(receipt');
    ListingsHaveOneText(Coerced(Filter(Unwrapped, Sort(CodeUnits, WithoutSignature(receipt)))), Checked(receipt),
                        Coerced(Filter(Unwrapped, Sort(CodeUnits, WithoutSignature(receipt')))), Checked(receipt'));
  }
}
