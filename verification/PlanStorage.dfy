/**
 * What becomes of an approved plan that is stored: which plans can be encoded, which come back from
 * their encoding, and which come back through the column they are stored in.
 */
module PlanStorage {
  import opened Common
  import opened MappingModel
  import opened CanonicalJson
  import opened JsonTree
  import opened JsonLeaves
  import opened JsonColumn
  import opened PlanCodec
  import opened PlanArtifact

  // ---------------------------------------------------------------- which plans can be encoded

  /** The parts of an encoded value are encoded themselves. */
  lemma {:induction false} EncodedField(fs: seq<Entry>, i: nat)
    requires CanonicalMembers(fs).Some? && i < |fs| && fs[i].key != VENDOR
    ensures Canonical(fs[i].value).Some?
  {
    hide Canonical;
    if i > 0 { EncodedField(fs[1..], i - 1); }
  }

  lemma {:induction false} EncodedItem(vs: seq<Value>, i: nat)
    requires CanonicalEach(vs).Some? && i < |vs|
    ensures Canonical(vs[i]).Some?
  {
    hide Canonical;
    if i > 0 { EncodedItem(vs[1..], i - 1); }
  }

  lemma {:induction false} RecordEncoded(fs: seq<Entry>, names: seq<string>, i: nat)
    requires Canonical(Record(fs)).Some? && KeysOf(fs) == names && FieldNames(names) && i < |fs|
    ensures Canonical(fs[i].value).Some?
  {
    hide Canonical, Distinct;
    assert names[i] != VENDOR;
    RecordParts(fs);
    EncodedField(fs, i);
  }

  lemma {:induction false} RecordParts(fs: seq<Entry>)
    ensures Canonical(Record(fs)).Some? <==> CanonicalMembers(fs).Some?
  {
    hide CanonicalMembers;
  }

  lemma {:induction false} ListParts(vs: seq<Value>)
    ensures Canonical(List(vs)).Some? <==> CanonicalEach(vs).Some?
  {
    hide CanonicalEach;
  }

  lemma {:induction false} ScalarEncodes(v: Scalar)
    ensures Canonical(ScalarValue(v)).Some? <==> EncodableScalar(v)
  {
  }

  lemma {:induction false} EncodedLiterals(e: Expression)
    requires Canonical(ExpressionValue(e)).Some?
    ensures EncodableLiterals(e)
    decreases e
  {
    hide Canonical, FieldNames, EncodableScalar, ScalarValue, OptionalType, OptionalText, OptionalBool, KindName,
         CanonicalEach, TextsValue;
    var fs := ExpressionFields(e, ExpressionValues(e.arguments));
    ExpressionNamesFit();
    assert KeysOf(fs) == EXPRESSION_NAMES;
    RecordEncoded(fs, EXPRESSION_NAMES, 2);
    RecordEncoded(fs, EXPRESSION_NAMES, 4);
    ScalarEncodes(e.literal);
    ListParts(ExpressionValues(e.arguments));
    EncodedLiteralsEach(e.arguments);
  }

  lemma {:induction false} EncodedLiteralsEach(es: seq<Expression>)
    requires CanonicalEach(ExpressionValues(es)).Some?
    ensures EncodableLiteralsEach(es)
    decreases es
  {
    hide Canonical, ExpressionValue, EncodableLiterals;
    if es != [] {
      EncodedLiterals(es[0]);
      EncodedLiteralsEach(es[1..]);
    }
  }

  lemma {:induction false} EncodedApproval(a: Approval)
    requires Canonical(Record(ApprovalFields(a))).Some?
    ensures ApprovalEncodes(a)
  {
    hide Canonical, FieldNames, EncodableLiterals, ExpressionValue, EvidenceValues, OptionalText, OptionalNat, StatusName,
         CompatibilityName;
    var fs := ApprovalFields(a);
    ApprovalNamesFit();
    assert KeysOf(fs) == APPROVAL_NAMES;
    RecordEncoded(fs, APPROVAL_NAMES, 10);
    if a.transformation.Some? { EncodedLiterals(a.transformation.value); }
  }

  lemma {:induction false} EncodedApprovals(xs: seq<Approval>)
    requires CanonicalEach(ApprovalValues(xs)).Some?
    ensures AllEncode(xs)
  {
    hide Canonical, ApprovalEncodes, ApprovalFields;
    if xs != [] {
      EncodedApproval(xs[0]);
      EncodedApprovals(xs[1..]);
      assert xs == [xs[0]] + xs[1..];
    }
  }

  lemma {:induction false} EncodedPlan(p: ApprovedPlan)
    requires Encode(PlanValue(p)).Some?
    ensures AllEncode(p.approvals)
  {
    hide Canonical, FieldNames, AllEncode, ApprovalValues, IdentityFields, TextsValue, SortedJson, CanonicalEach;
    var fs := PlanFields(p);
    PlanNamesFit();
    assert KeysOf(fs) == PLAN_NAMES;
    RecordEncoded(fs, PLAN_NAMES, 2);
    ListParts(ApprovalValues(p.approvals));
    EncodedApprovals(p.approvals);
  }

  /** A plan can be encoded exactly when every literal in it can, and every integer can be written. */
  lemma {:induction false} PlanEncodes(p: ApprovedPlan)
    requires ValidPlan(p)
    ensures Dump(PlanValue(p)).Some? <==> AllEncode(p.approvals) && Throughout(Writable, PlanValue(p))
  {
    hide PlanValue, Encode, Encodable, Keyed, ValidPlan, AllEncode, Loads, View, Throughout, Everywhere;
    if Dump(PlanValue(p)).Some? { EncodedPlan(p); }
    if AllEncode(p.approvals) {
      PlanIsStorable(p);
      DumpMeans(PlanValue(p));
    }
  }

  // ---------------------------------------------------------------- which plans come back

  lemma {:induction false} LiteralsEncode(xs: seq<Approval>)
    requires AllLiterals(xs)
    ensures AllEncode(xs)
  {
    hide JsonLiterals, EncodableLiterals;
    forall i | 0 <= i < |xs| ensures ApprovalEncodes(xs[i]) {
      assert ApprovalLiterals(xs[i]);
      if xs[i].transformation.Some? { JsonIsEncodable(xs[i].transformation.value); }
    }
  }

  /** Exactly the plans whose literals are JSON scalars, with integers that can be written, come back. */
  lemma {:induction false} PlanRoundTrip(p: ApprovedPlan)
    requires ValidPlan(p)
    ensures var j := Dump(PlanValue(p));
            j.Some? && DecodePlan(Loads(j.value)) == Some(p)
            <==> AllLiterals(p.approvals) && Throughout(Writable, PlanValue(p))
  {
    hide PlanValue, Dump, Encodable, Keyed, ValidPlan, AllEncode, AllLiterals, Loads, View, DecodePlan, Throughout;
    var j := Dump(PlanValue(p));
    if AllLiterals(p.approvals) {
      LiteralsEncode(p.approvals);
      PlanIsStorable(p);
      DumpMeans(PlanValue(p));
      PlanBack(p);
    }
    if j.Some? && DecodePlan(Loads(j.value)) == Some(p) { PlanDecoded(Loads(j.value)); }
  }

  /** Members may come back in any order. */
  lemma {:induction false} PlanStored(p: ApprovedPlan, stored: Json)
    requires ValidPlan(p) && AllLiterals(p.approvals)
    requires Dump(PlanValue(p)).Some? && SameJson(stored, Dump(PlanValue(p)).value)
    ensures DecodePlan(Loads(stored)) == Some(p)
    ensures Dump(FromJson(stored)) == Dump(PlanValue(p))
  {
    hide DecodePlan, PlanValue, Encode, Encodable, Keyed, ValidPlan, AllLiterals, AllEncode, SameJson, Loads, View, FromJson,
         Everywhere;
    LiteralsEncode(p.approvals);
    PlanIsStorable(p);
    PlanBack(p);
    StoredView(PlanValue(p), stored);
    StoredHashHolds(PlanValue(p), stored);
  }

  // ---------------------------------------------------------------- through the column

  /**
   * The plan can be encoded, the column takes it, and whatever the column gives back passes the check
   * of the stored hash and decodes to the plan.
   */
  ghost predicate Survives(p: ApprovedPlan) {
    var j := Dump(PlanValue(p));
    && j.Some? && Everywhere(Clear, j.value)
    && forall stored :: Fetched(j.value, stored) ==> Dump(FromJson(stored)) == j && DecodePlan(Loads(stored)) == Some(p)
  }

  /** The tree that was written is clean, so the column may give it back unchanged in order. */
  lemma {:induction false} FetchedOnce(p: ApprovedPlan)
    requires ValidPlan(p) && AllEncode(p.approvals) && Dump(PlanValue(p)).Some?
    requires Everywhere(Clear, Dump(PlanValue(p)).value)
    ensures var j := Dump(PlanValue(p)).value; Fetched(j, InColumn(j))
  {
    hide PlanValue, Canonical, Keyed, Encodable, AllEncode, ValidPlan, Clean, SameJson, InColumn, Everywhere, SortedJson;
    PlanIsStorable(p);
    CanonicalClean(PlanValue(p));
    SortedClean(Canonical(PlanValue(p)).value);
    ColumnClean(Encode(PlanValue(p)).value);
    SameReflexive(InColumn(Encode(PlanValue(p)).value));
  }

  lemma {:induction false} PlainPlanStored(p: ApprovedPlan, stored: Json)
    requires ValidPlan(p) && AllLiterals(p.approvals) && Dump(PlanValue(p)).Some?
    requires Everywhere(Plain, Dump(PlanValue(p)).value) && Fetched(Dump(PlanValue(p)).value, stored)
    ensures Dump(FromJson(stored)) == Dump(PlanValue(p)) && DecodePlan(Loads(stored)) == Some(p)
  {
    hide DecodePlan, PlanValue, Dump, ValidPlan, AllLiterals, SameJson, Loads, FromJson, InColumn, Everywhere;
    PlainStays(Dump(PlanValue(p)).value);
    PlanStored(p, stored);
  }

  lemma {:induction false} FetchedHash(p: ApprovedPlan, stored: Json)
    requires ValidPlan(p) && AllEncode(p.approvals) && Dump(PlanValue(p)).Some?
    requires Fetched(Dump(PlanValue(p)).value, stored)
    ensures Dump(FromJson(stored)) == Dump(PlanValue(p)) <==> Everywhere(Plain, Dump(PlanValue(p)).value)
  {
    hide PlanValue, Dump, Keyed, Encodable, AllEncode, ValidPlan, SameJson, FromJson, InColumn, Everywhere;
    PlanIsStorable(p);
    ColumnHashHolds(PlanValue(p), stored);
  }

  lemma {:induction false} DumpedLeaves(p: ApprovedPlan, f: Json -> bool)
    requires ValidPlan(p) && AllEncode(p.approvals) && Dump(PlanValue(p)).Some?
    ensures Everywhere(f, Dump(PlanValue(p)).value) <==> Throughout(f, PlanValue(p))
  {
    hide PlanValue, Encode, Keyed, Encodable, AllEncode, ValidPlan, Everywhere, Throughout;
    PlanIsStorable(p);
    EverywhereEncoded(f, PlanValue(p));
  }

  /**
   * Exactly which plans survive storage: every literal is a JSON scalar, every integer can be written,
   * no text holds NUL, and no number reaches the exponent form or is negative zero.
   */
  lemma {:induction false} PlanSurvives(p: ApprovedPlan)
    requires ValidPlan(p)
    ensures Survives(p) <==> && AllLiterals(p.approvals) && Throughout(Writable, PlanValue(p))
                             && Throughout(Clear, PlanValue(p)) && Throughout(Plain, PlanValue(p))
  {
    hide DecodePlan, PlanValue, Dump, Keyed, Encodable, ValidPlan, AllLiterals, AllEncode, Loads, FromJson, InColumn,
         Everywhere, Throughout, Fetched;
    var j := Dump(PlanValue(p));
    PlanEncodes(p);
    if j.Some? {
      DumpedLeaves(p, Clear);
      DumpedLeaves(p, Plain);
    }
    if Survives(p) {
      FetchedOnce(p);
      FetchedHash(p, InColumn(j.value));
      PlanDecoded(Loads(InColumn(j.value)));
    }
    if && AllLiterals(p.approvals) && Throughout(Writable, PlanValue(p))
       && Throughout(Clear, PlanValue(p)) && Throughout(Plain, PlanValue(p)) {
      LiteralsEncode(p.approvals);
      forall stored | Fetched(j.value, stored)
        ensures Dump(FromJson(stored)) == j && DecodePlan(Loads(stored)) == Some(p)
      {
        PlainPlanStored(p, stored);
      }
    }
  }
}
