/**
 * Plans with a single mapping that writes a literal: the smallest plans at which compilation and
 * storage fail, one for each reason.
 */
module PlanExamples {
  import opened Common
  import opened MappingModel
  import opened Ordering
  import opened SqlMeaning
  import opened Transformation
  import opened CompiledPlan
  import J = CanonicalJson
  import opened Digits
  import opened JsonTree
  import opened JsonLeaves
  import opened JsonColumn
  import C = PlanCodec
  import A = PlanArtifact
  import S = PlanStorage

  function LiteralExpression(v: Scalar): Expression {
    Expression(Literal, [], v, None, [], None, None, None)
  }

  function LiteralMapping(target: string, v: Scalar): Approval {
    Approval("id", Some(target), Approved, Finite(1.0), Exact, [], Exact, Some(1), None, None, Some(LiteralExpression(v)))
  }

  function LiteralPlan(target: string, v: Scalar): ApprovedPlan {
    var m := LiteralMapping(target, v);
    ApprovedPlan(TableIdentity(Some("db"), "db", "source", "mysql"), TableIdentity(Some("db"), "db", "target", "mysql"),
                 [m], [m], [], [], [], [], 1)
  }

  const STAGING := Relation(Some("db"), "db", "stage")

  lemma {:induction false} LiteralMappingValid(target: string, v: Scalar)
    requires '\0' !in target
    ensures ValidApproval(LiteralMapping(target, v)) && IsApproved(LiteralMapping(target, v))
  {
    assert "id"[0] == 'i' && !IsSpace('i') && |"id"| == 2 && "id"[1] == 'd';
    assert ValidNode(LiteralExpression(v));
  }

  lemma {:induction false} ShortNames()
    ensures ValidName("db") && ValidName("source") && ValidName("target") && ValidName("mysql") && ValidName("stage")
  {
    assert "db"[0] == 'd' && "source"[0] == 's' && "target"[0] == 't' && "mysql"[0] == 'm' && "stage"[0] == 's';
    assert !IsSpace('d') && !IsSpace('s') && !IsSpace('t') && !IsSpace('m');
  }

  lemma {:induction false} LiteralPlanValid(target: string, v: Scalar)
    requires '\0' !in target
    ensures ValidPlan(LiteralPlan(target, v))
  {
    hide ValidApproval, ValidName, LiteralMapping, IsApproved;
    LiteralMappingValid(target, v);
    ShortNames();
    var m := LiteralMapping(target, v);
    assert OnlyApproved([m]) == [m] by { assert [m][1..] == []; }
  }

  // ---------------------------------------------------------------- compiling

  lemma {:induction false} LiteralParameters(v: Scalar)
    ensures AllBindable(Parameters(LiteralExpression(v))) <==> Bindable(v)
    ensures Parameters(LiteralExpression(v)) == [v]
  {
    assert AllBindable([v]) ==> Bindable([v][0]);
  }

  lemma {:induction false} ShortFits(p: Profile)
    ensures Fits(p, "db") && Fits(p, "source") && Fits(p, "target") && Fits(p, "stage") && Fits(p, "s")
  {
    assert |"db"| == 2 && |"source"| == 6 && |"target"| == 6 && |"stage"| == 5 && |"s"| == 1;
  }

  lemma {:induction false} LiteralMappingsFault(p: Profile, allowed: set<string>, m: Approval, v: Scalar)
    requires m.target.Some? && m.transformation == Some(LiteralExpression(v))
    ensures MappingsFault(p, "s", allowed, [m]).None?
  {
    hide Fits;
    FaultFree(p, "s", allowed, LiteralExpression(v), 0);
    assert [m][1..] == [];
  }

  /** A literal that cannot be bound is refused, and so is a blank target name; each by its own check. */
  lemma {:induction false} LiteralFault(p: Profile, target: string, v: Scalar)
    requires Fits(p, target)
    ensures PlanFault(p, LiteralPlan(target, v), STAGING, "s")
            == (if !Bindable(v) then Some(UnsafeParameter) else if IsBlank(target) then Some(InvalidResult) else None)
  {
    hide Fits, MappingsFault, Parameters, LiteralExpression, Bindable, AllBindable, SortBy;
    var plan, m := LiteralPlan(target, v), LiteralMapping(target, v);
    OneOrdered(m);
    ShortFits(p);
    LiteralParameters(v);
    LiteralMappingsFault(p, AllowedColumns(plan), m, v);
    FitsMeansName(p, target);
    var ms := Ordered(plan.approvedMappings);
    assert ms == [m] && ms[0] == m && m.target == Some(target);
    assert Binds(m) <==> Bindable(v);
    assert (exists i :: 0 <= i < |ms| && !Binds(ms[i])) <==> !Binds(m);
    assert (exists i :: 0 <= i < |ms| && (ms[i].target.None? || !ValidName(ms[i].target.value))) <==> IsBlank(target);
    assert CatalogsFit(p, STAGING, TargetOf(plan));
    assert RelationNames(p, STAGING).Some? && RelationNames(p, TargetOf(plan)).Some?;
  }

  lemma {:induction false} FitsMeansName(p: Profile, name: string)
    requires Fits(p, name)
    ensures ValidName(name) <==> !IsBlank(name)
  {
  }

  lemma {:induction false} OneOrdered(m: Approval)
    ensures Ordered([m]) == [m] && Distinct(Targets([m]))
  {
    assert [m][1..] == [];
    assert SortBy([], PositionOf) == [];
  }

  /** A valid plan with a blank target gets as far as the constructor of the statement. */
  lemma {:induction false} BlankTargetRefused(p: Profile)
    ensures ValidPlan(LiteralPlan(" ", Null)) && PlanFault(p, LiteralPlan(" ", Null), STAGING, "s") == Some(InvalidResult)
  {
    hide ValidPlan, PlanFault, LiteralPlan;
    assert " "[0] == ' ' && |" "| == 1;
    LiteralPlanValid(" ", Null);
    LiteralFault(p, " ", Null);
  }

  /** So does a valid plan with a binary literal. */
  lemma {:induction false} BytesRefused(p: Profile)
    ensures ValidPlan(LiteralPlan("id", Raw(0)))
    ensures PlanFault(p, LiteralPlan("id", Raw(0)), STAGING, "s") == Some(UnsafeParameter)
  {
    hide ValidPlan, PlanFault, LiteralPlan;
    assert "id"[0] == 'i' && "id"[1] == 'd' && |"id"| == 2;
    LiteralPlanValid("id", Raw(0));
    LiteralFault(p, "id", Raw(0));
  }

  // ---------------------------------------------------------------- storing

  /** A literal that survives everywhere: no long integer, no NUL, no exponent, no negative zero. */
  predicate Durable(v: Scalar) {
    && C.JsonScalar(v) && (v.Whole? ==> ShortInteger(v.i)) && (v.Text? ==> '\0' !in v.text)
    && (v.Number? ==> v.x.Finite? && -EXPONENT_FROM < v.x.x < EXPONENT_FROM)
  }

  lemma {:induction false} OneLiteral(target: string, v: Scalar)
    ensures A.AllEncode(LiteralPlan(target, v).approvals) <==> C.EncodableScalar(v)
    ensures A.AllLiterals(LiteralPlan(target, v).approvals) <==> C.JsonScalar(v)
  {
    hide C.EncodableScalar, C.JsonScalar;
    var xs := LiteralPlan(target, v).approvals;
    var e := LiteralExpression(v);
    assert |xs| == 1 && xs[0].transformation == Some(e) && e.arguments == [];
    assert C.EncodableLiterals(e) <==> C.EncodableScalar(v);
    assert C.JsonLiterals(e) <==> C.JsonScalar(v);
    assert A.AllEncode(xs) <==> A.ApprovalEncodes(xs[0]);
    assert A.AllLiterals(xs) <==> A.ApprovalLiterals(xs[0]);
  }

  lemma {:induction false} ThroughoutItem(f: J.Json -> bool, vs: seq<J.Value>, i: nat)
    requires i < |vs| && Throughout(f, J.List(vs))
    ensures Throughout(f, vs[i])
    decreases i
  {
    hide J.Canonical;
    if i > 0 { ThroughoutItem(f, vs[1..], i - 1); }
  }

  lemma {:induction false} ThroughoutLiteral(f: J.Json -> bool, target: string, v: Scalar)
    requires Throughout(f, A.PlanValue(LiteralPlan(target, v)))
    ensures Throughout(f, C.ScalarValue(v))
  {
    hide Throughout, C.ScalarValue, A.IdentityFields, C.TypeText, C.StatusName, A.EvidenceValues, TextsValue, J.Canonical;
    var p, m, e := LiteralPlan(target, v), LiteralMapping(target, v), LiteralExpression(v);
    ThroughoutField(f, A.PlanFields(p), 2);
    ThroughoutItem(f, A.ApprovalValues(p.approvals), 0);
    ThroughoutField(f, A.ApprovalFields(m), 10);
    ThroughoutField(f, C.ExpressionFields(e, C.ExpressionValues([])), 2);
  }

  lemma {:induction false} LeafWritable(v: J.Value)
    requires v.Text? || v.Real? || v.Code? || v.Nothing? || v == J.Int(1) || v == J.List([])
    ensures Throughout(Writable, v)
  {
    OneDigit();
  }

  lemma {:induction false} OneDigit()
    ensures ShortInteger(1)
  {
    assert |Numeral(1)| == 1;
  }

  lemma {:induction false} RecordWritable(fs: seq<J.Entry>)
    requires forall i :: 0 <= i < |fs| ==> Throughout(Writable, fs[i].value)
    ensures Throughout(Writable, J.Record(fs))
  {
    hide J.Canonical;
    ThroughoutEvery(Writable, fs);
  }

  lemma {:induction false} OneItemWritable(v: J.Value)
    requires Throughout(Writable, v)
    ensures Throughout(Writable, J.List([v]))
  {
    assert [v][1..] == [];
  }

  lemma {:induction false} ExpressionWritable(v: Scalar)
    requires Throughout(Writable, C.ScalarValue(v))
    ensures Throughout(Writable, C.ExpressionValue(LiteralExpression(v)))
  {
    hide Throughout, C.ScalarValue, C.KindName;
    var fs := C.ExpressionFields(LiteralExpression(v), C.ExpressionValues([]));
    LeafWritable(fs[0].value);
    LeafWritable(J.List([]));
    LeafWritable(J.Nothing);
    RecordWritable(fs);
  }

  lemma {:induction false} MappingWritable(target: string, v: Scalar)
    requires Throughout(Writable, C.ScalarValue(v))
    ensures Throughout(Writable, J.Record(A.ApprovalFields(LiteralMapping(target, v))))
  {
    hide Throughout, C.ScalarValue, C.ExpressionValue, C.StatusName, C.CompatibilityName;
    var fs := A.ApprovalFields(LiteralMapping(target, v));
    ExpressionWritable(v);
    LeafWritable(fs[0].value);
    LeafWritable(fs[1].value);
    LeafWritable(fs[2].value);
    LeafWritable(fs[3].value);
    LeafWritable(fs[4].value);
    LeafWritable(fs[5].value);
    LeafWritable(fs[6].value);
    LeafWritable(fs[7].value);
    LeafWritable(J.Nothing);
    RecordWritable(fs);
  }

  lemma {:induction false} IdentityWritable(t: TableIdentity)
    ensures Throughout(Writable, J.Record(A.IdentityFields(t)))
  {
    hide Throughout;
    var fs := A.IdentityFields(t);
    LeafWritable(fs[0].value);
    LeafWritable(fs[1].value);
    LeafWritable(fs[2].value);
    LeafWritable(fs[3].value);
    RecordWritable(fs);
  }

  /** The only integer that may be too long is the literal. */
  lemma {:induction false} PlanWritable(target: string, v: Scalar)
    ensures Throughout(Writable, A.PlanValue(LiteralPlan(target, v))) <==> Throughout(Writable, C.ScalarValue(v))
  {
    hide Throughout, C.ScalarValue, A.IdentityFields, A.ApprovalFields, LiteralMapping;
    var p, m := LiteralPlan(target, v), LiteralMapping(target, v);
    if Throughout(Writable, A.PlanValue(p)) { ThroughoutLiteral(Writable, target, v); }
    if Throughout(Writable, C.ScalarValue(v)) {
      var fs := A.PlanFields(p);
      MappingWritable(target, v);
      OneApproval(m);
      OneItemWritable(J.Record(A.ApprovalFields(m)));
      IdentityWritable(p.sourceTable);
      IdentityWritable(p.targetTable);
      LeafWritable(J.List([]));
      LeafWritable(J.Int(1));
      RecordWritable(fs);
    }
  }

  lemma {:induction false} OneApproval(m: Approval)
    ensures A.ApprovalValues([m]) == [J.Record(A.ApprovalFields(m))]
  {
    hide A.ApprovalFields;
    assert [m][1..] == [];
  }

  lemma {:induction false} LeafDurable(v: Scalar)
    requires C.JsonScalar(v) && Throughout(Writable, C.ScalarValue(v))
    requires Throughout(Clear, C.ScalarValue(v)) && Throughout(Plain, C.ScalarValue(v))
    ensures Durable(v)
  {
    hide ShortInteger;
  }

  lemma {:induction false} ScalarWritable(v: Scalar)
    ensures Throughout(Writable, C.ScalarValue(v)) <==> (v.Whole? ==> ShortInteger(v.i))
  {
    hide ShortInteger;
  }

  /** What becomes of a literal that is stored: refused, turned into a text, or kept. */
  lemma {:induction false} LiteralStored(target: string, v: Scalar)
    requires '\0' !in target
    ensures var p := LiteralPlan(target, v);
            var j := Dump(A.PlanValue(p));
            && (j.Some? <==> C.EncodableScalar(v) && (v.Whole? ==> ShortInteger(v.i)))
            && (j.Some? && A.DecodePlan(Loads(j.value)) == Some(p)
                <==> C.JsonScalar(v) && (v.Whole? ==> ShortInteger(v.i)))
            && (S.Survives(p) ==> Durable(v))
  {
    hide ValidPlan, LiteralPlan, Dump, A.PlanValue, A.DecodePlan, Loads, S.Survives, Durable, C.JsonScalar,
         C.EncodableScalar, Throughout, A.AllEncode, A.AllLiterals, C.ScalarValue, ShortInteger;
    var p := LiteralPlan(target, v);
    LiteralPlanValid(target, v);
    OneLiteral(target, v);
    S.PlanEncodes(p);
    S.PlanRoundTrip(p);
    S.PlanSurvives(p);
    PlanWritable(target, v);
    ScalarWritable(v);
    if S.Survives(p) {
      ThroughoutLiteral(Clear, target, v);
      ThroughoutLiteral(Plain, target, v);
      LeafDurable(v);
    }
  }

  lemma {:induction false} IdName()
    ensures '\0' !in "id"
  {
    assert "id"[0] == 'i' && "id"[1] == 'd' && |"id"| == 2;
  }

  /** A date can be stored and comes back as something else; bytes and local times cannot be stored. */
  lemma {:induction false} DatesLost()
    ensures var p := LiteralPlan("id", Calendar("2024-01-31"));
            var j := Dump(A.PlanValue(p));
            ValidPlan(p) && j.Some? && A.DecodePlan(Loads(j.value)) != Some(p)
    ensures ValidPlan(LiteralPlan("id", Raw(0))) && Dump(A.PlanValue(LiteralPlan("id", Raw(0)))).None?
    ensures Dump(A.PlanValue(LiteralPlan("id", Moment("2024-01-31T00:00:00", false)))).None?
  {
    hide ValidPlan, LiteralPlan, Dump, A.PlanValue, A.DecodePlan, Loads, S.Survives, Durable;
    IdName();
    LiteralPlanValid("id", Calendar("2024-01-31"));
    LiteralPlanValid("id", Raw(0));
    LiteralStored("id", Calendar("2024-01-31"));
    LiteralStored("id", Raw(0));
    LiteralStored("id", Moment("2024-01-31T00:00:00", false));
  }

  lemma {:induction false} NotDurable(v: Scalar)
    requires C.JsonScalar(v) && !Durable(v)
    ensures var p := LiteralPlan("id", v); ValidPlan(p) && A.AllLiterals(p.approvals) && !S.Survives(p)
  {
    hide ValidPlan, LiteralPlan, S.Survives, A.AllLiterals, Durable, C.JsonScalar, Dump, A.PlanValue, A.DecodePlan, Loads;
    IdName();
    LiteralPlanValid("id", v);
    OneLiteral("id", v);
    LiteralStored("id", v);
  }

  /** JSON scalars can still be lost in the column: a large number, a negative zero, or a text that holds NUL. */
  lemma {:induction false} NumbersLost()
    ensures var p := LiteralPlan("id", Number(Finite(EXPONENT_FROM)));
            ValidPlan(p) && A.AllLiterals(p.approvals) && !S.Survives(p)
    ensures var p := LiteralPlan("id", Number(NegativeZero));
            ValidPlan(p) && A.AllLiterals(p.approvals) && !S.Survives(p)
    ensures var p := LiteralPlan("id", Text("\0")); ValidPlan(p) && A.AllLiterals(p.approvals) && !S.Survives(p)
  {
    hide ValidPlan, LiteralPlan, S.Survives, A.AllLiterals, ShortInteger;
    assert "\0"[0] == '\0';
    NotDurable(Number(Finite(EXPONENT_FROM)));
    NotDurable(Number(NegativeZero));
    NotDurable(Text("\0"));
  }

  /** The power of ten with one digit too many is a JSON scalar that cannot be written. */
  lemma {:induction false} LongIntegerRefused()
    ensures var p := LiteralPlan("id", Whole(Power10(MAX_DIGITS)));
            ValidPlan(p) && A.AllLiterals(p.approvals) && Dump(A.PlanValue(p)).None?
  {
    hide ValidPlan, LiteralPlan, A.AllLiterals, Dump, A.PlanValue, Power10, S.Survives, Loads, A.DecodePlan;
    var v := Whole(Power10(MAX_DIGITS));
    PowerLong(MAX_DIGITS);
    IdName();
    LiteralPlanValid("id", v);
    OneLiteral("id", v);
    LiteralStored("id", v);
  }

  lemma {:induction false} PowerLong(k: nat)
    requires k >= MAX_DIGITS
    ensures !ShortInteger(Power10(k))
  {
    hide Power10;
    PowerDigits(k);
  }
}
