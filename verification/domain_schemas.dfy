/**
 The pilot-logbook domain schemas: aircraft, approaches, flight entries,
 pilot profiles and currency requirements, with the FAA enumerations they
 draw from. Each schema is a `Validation.Kind`; the lemmas state the field
 constraints that a successful parse guarantees.
 */
module DomainSchemas {
  import opened Values
  import opened Validation

  const AircraftCategories: seq<string> := [
    "AIRPLANE", "ROTORCRAFT", "GLIDER", "LIGHTER_THAN_AIR", "POWERED_LIFT",
    "POWERED_PARACHUTE", "WEIGHT_SHIFT_CONTROL"
  ]

  const AircraftClasses: seq<string> := [
    "SINGLE_ENGINE_LAND", "SINGLE_ENGINE_SEA", "MULTI_ENGINE_LAND", "MULTI_ENGINE_SEA",
    "HELICOPTER", "GYROPLANE"
  ]

  const ApproachTypes: seq<string> := [
    "ILS", "LOC", "VOR", "NDB", "GPS", "RNAV", "LPV", "VISUAL", "CIRCLING", "PAR", "ASR"
  ]

  const CertificateTypes: seq<string> := [
    "STUDENT", "SPORT", "RECREATIONAL", "PRIVATE", "COMMERCIAL", "ATP"
  ]

  const MedicalClasses: seq<string> := ["FIRST", "SECOND", "THIRD", "BASIC_MED"]

  const NoFlag := Default(Bool(false))
  const ZeroDefault := Default(Num(0.0))
  const Hours := Number(Some(0.0))
  const Count := Integer(Some(0.0))

  /** Aircraft; the owner key is spelled `oderId` in the schema. */
  const AircraftFields: map<string, Spec> := map[
    "id" := Spec(Uuid, Required),
    "oderId" := Spec(Uuid, Required),
    "tailNumber" := Spec(LengthBetween(1, 10), Required),
    "make" := Spec(AnyString, Required),
    "model" := Spec(AnyString, Required),
    "category" := Spec(OneOf(AircraftCategories), Required),
    "class" := Spec(OneOf(AircraftClasses), Required),
    "typeRating" := Spec(AnyString, Optional),
    "isComplex" := Spec(Boolean, NoFlag),
    "isHighPerformance" := Spec(Boolean, NoFlag),
    "isTailwheel" := Spec(Boolean, NoFlag),
    "isTurbine" := Spec(Boolean, NoFlag),
    "isMultiEngine" := Spec(Boolean, NoFlag),
    "createdAt" := Spec(Timestamp, Required),
    "updatedAt" := Spec(Timestamp, Required),
    "deletedAt" := Spec(Timestamp, Optional)
  ]

  const AircraftFlags: seq<string> :=
    ["isComplex", "isHighPerformance", "isTailwheel", "isTurbine", "isMultiEngine"]

  /** An approach flown during a flight. */
  const ApproachFields: map<string, Spec> := map[
    "type" := Spec(OneOf(ApproachTypes), Required),
    "runway" := Spec(AnyString, Required),
    "airport" := Spec(ExactLength(4), Required),
    "circleToLand" := Spec(Boolean, NoFlag)
  ]

  /** Flight times other than `totalTime`: pilot-in-command, second in
      command, dual and solo time. They default to zero. */
  const DutyTimes: seq<string> := ["picTime", "sicTime", "dualReceived", "dualGiven", "soloTime"]

  /** Times logged under conditions (cross-country, night, instrument);
      they default to zero. */
  const ConditionTimes: seq<string> :=
    ["crossCountryTime", "nightTime", "actualInstrumentTime", "simulatedInstrumentTime"]

  /** Landing counts: non-negative integers defaulting to zero. */
  const Landings: seq<string> :=
    ["dayLandings", "nightLandings", "dayFullStopLandings", "nightFullStopLandings"]

  /** A logbook entry. */
  const FlightEntryFields: map<string, Spec> := map[
    "id" := Spec(Uuid, Required),
    "userId" := Spec(Uuid, Required),
    "date" := Spec(Timestamp, Required),
    "aircraftId" := Spec(Uuid, Required),
    "departureAirport" := Spec(ExactLength(4), Required),
    "arrivalAirport" := Spec(ExactLength(4), Required),
    "route" := Spec(AnyString, Optional),
    "totalTime" := Spec(Hours, Required),
    "picTime" := Spec(Hours, ZeroDefault),
    "sicTime" := Spec(Hours, ZeroDefault),
    "dualReceived" := Spec(Hours, ZeroDefault),
    "dualGiven" := Spec(Hours, ZeroDefault),
    "soloTime" := Spec(Hours, ZeroDefault),
    "crossCountryTime" := Spec(Hours, ZeroDefault),
    "nightTime" := Spec(Hours, ZeroDefault),
    "actualInstrumentTime" := Spec(Hours, ZeroDefault),
    "simulatedInstrumentTime" := Spec(Hours, ZeroDefault),
    "dayLandings" := Spec(Count, ZeroDefault),
    "nightLandings" := Spec(Count, ZeroDefault),
    "dayFullStopLandings" := Spec(Count, ZeroDefault),
    "nightFullStopLandings" := Spec(Count, ZeroDefault),
    "approaches" := Spec(ListOf(Shape(ApproachFields)), Default(Arr([]))),
    "holds" := Spec(Count, ZeroDefault),
    "remarks" := Spec(AnyString, Optional),
    "instructorName" := Spec(AnyString, Optional),
    "instructorCertNumber" := Spec(AnyString, Optional),
    "instructorSignature" := Spec(AnyString, Optional),
    "createdAt" := Spec(Timestamp, Required),
    "updatedAt" := Spec(Timestamp, Required),
    "syncedAt" := Spec(Timestamp, Optional),
    "deletedAt" := Spec(Timestamp, Optional)
  ]

  /** A pilot's profile with certificate information. */
  const PilotProfileFields: map<string, Spec> := map[
    "id" := Spec(Uuid, Required),
    "auth0Id" := Spec(AnyString, Required),
    "email" := Spec(Email, Required),
    "firstName" := Spec(AnyString, Required),
    "lastName" := Spec(AnyString, Required),
    "certificateNumber" := Spec(AnyString, Optional),
    "certificateType" := Spec(OneOf(CertificateTypes), Optional),
    "ratings" := Spec(ListOf(AnyString), Default(Arr([]))),
    "medicalClass" := Spec(OneOf(MedicalClasses), Optional),
    "medicalExpiry" := Spec(Timestamp, Optional),
    "flightReviewDate" := Spec(Timestamp, Optional),
    "defaultAircraftId" := Spec(Uuid, Optional),
    "homeAirport" := Spec(ExactLength(4), Optional),
    "createdAt" := Spec(Timestamp, Required),
    "updatedAt" := Spec(Timestamp, Required)
  ]

  /** A currency requirement (night, IFR, ...). */
  const CurrencyRequirementFields: map<string, Spec> := map[
    "id" := Spec(Uuid, Required),
    "userId" := Spec(Uuid, Required),
    "name" := Spec(AnyString, Required),
    "requirement" := Spec(AnyString, Required),
    "expiresAt" := Spec(Timestamp, Required),
    "isCurrent" := Spec(Boolean, Required)
  ]

  // ---------------------------------------------------------------------
  // Field shapes shared by the schemas
  // ---------------------------------------------------------------------

  /** A boolean field defaulting to false. */
  lemma FlagField(fields: map<string, Spec>, v: Value, f: string)
    requires Valid(Shape(fields), v)
    requires f in fields && fields[f] == Spec(Boolean, NoFlag)
    ensures f in Parsed(fields, v) && Parsed(fields, v)[f].Bool?
    ensures f !in v.fields ==> Parsed(fields, v)[f] == Bool(false)
  {
    ParsedShape(fields, v, f);
    if f !in v.fields {
      DefaultedField(fields, v, f);
    }
  }

  /** A non-negative number field defaulting to zero. */
  lemma HoursField(fields: map<string, Spec>, v: Value, f: string)
    requires Valid(Shape(fields), v)
    requires f in fields && fields[f] == Spec(Hours, ZeroDefault)
    ensures f in Parsed(fields, v) && Parsed(fields, v)[f].Num? && Parsed(fields, v)[f].n >= 0.0
    ensures f !in v.fields ==> Parsed(fields, v)[f] == Num(0.0)
  {
    ParsedShape(fields, v, f);
    if f !in v.fields {
      DefaultedField(fields, v, f);
    }
  }

  /** A non-negative integer field defaulting to zero. */
  lemma CountField(fields: map<string, Spec>, v: Value, f: string)
    requires Valid(Shape(fields), v)
    requires f in fields && fields[f] == Spec(Count, ZeroDefault)
    ensures f in Parsed(fields, v) && Parsed(fields, v)[f].Num?
    ensures IsInteger(Parsed(fields, v)[f].n) && Parsed(fields, v)[f].n >= 0.0
    ensures f !in v.fields ==> Parsed(fields, v)[f] == Num(0.0)
  {
    ParsedShape(fields, v, f);
    if f !in v.fields {
      DefaultedField(fields, v, f);
    }
  }

  /** Several count fields at once. */
  lemma CountFields(fields: map<string, Spec>, v: Value, names: seq<string>)
    requires Valid(Shape(fields), v)
    requires forall f | f in names :: f in fields && fields[f] == Spec(Count, ZeroDefault)
    ensures forall f | f in names ::
              && f in Parsed(fields, v) && Parsed(fields, v)[f].Num?
              && IsInteger(Parsed(fields, v)[f].n) && Parsed(fields, v)[f].n >= 0.0
              && (f !in v.fields ==> Parsed(fields, v)[f] == Num(0.0))
  {
    forall f | f in names
      ensures && f in Parsed(fields, v) && Parsed(fields, v)[f].Num?
              && IsInteger(Parsed(fields, v)[f].n) && Parsed(fields, v)[f].n >= 0.0
              && (f !in v.fields ==> Parsed(fields, v)[f] == Num(0.0))
    {
      CountField(fields, v, f);
    }
  }

  /** Several hour fields at once. */
  lemma HoursFields(fields: map<string, Spec>, v: Value, names: seq<string>)
    requires Valid(Shape(fields), v)
    requires forall f | f in names :: f in fields && fields[f] == Spec(Hours, ZeroDefault)
    ensures forall f | f in names ::
              && f in Parsed(fields, v) && Parsed(fields, v)[f].Num? && Parsed(fields, v)[f].n >= 0.0
              && (f !in v.fields ==> Parsed(fields, v)[f] == Num(0.0))
  {
    forall f | f in names
      ensures && f in Parsed(fields, v) && Parsed(fields, v)[f].Num? && Parsed(fields, v)[f].n >= 0.0
              && (f !in v.fields ==> Parsed(fields, v)[f] == Num(0.0))
    {
      HoursField(fields, v, f);
    }
  }

  /** A list field defaulting to the empty list. */
  lemma EmptyListDefault(fields: map<string, Spec>, v: Value, f: string, item: Kind)
    requires Valid(Shape(fields), v)
    requires f in fields && fields[f] == Spec(ListOf(item), Default(Arr([])))
    ensures f in Parsed(fields, v) && Parsed(fields, v)[f].Arr?
    ensures f !in v.fields ==> Parsed(fields, v)[f] == Arr([])
  {
    ParsedShape(fields, v, f);
    if f !in v.fields {
      assert Normalize(ListOf(item), Arr([])).items == [];
    }
  }

  // ---------------------------------------------------------------------
  // Aircraft
  // ---------------------------------------------------------------------

  /** A parsed aircraft has a tail number of 1 to 10 characters, and its
      category and class come from the closed FAA lists. */
  lemma AircraftConstraints(v: Value)
    requires Parse(Shape(AircraftFields), v).Some?
    ensures var a := Parsed(AircraftFields, v);
      && "tailNumber" in a && a["tailNumber"].Str? && 1 <= |a["tailNumber"].s| <= 10
      && "category" in a && a["category"].Str? && a["category"].s in AircraftCategories
      && "class" in a && a["class"].Str? && a["class"].s in AircraftClasses
  {
    ParsedShape(AircraftFields, v, "tailNumber");
    ParsedShape(AircraftFields, v, "category");
    ParsedShape(AircraftFields, v, "class");
  }

  /** The capability flags are always booleans; an omitted flag is false. */
  lemma AircraftFlagsDefaultFalse(v: Value)
    requires Parse(Shape(AircraftFields), v).Some?
    ensures forall f | f in AircraftFlags ::
      f in Parsed(AircraftFields, v) && Parsed(AircraftFields, v)[f].Bool?
      && (f !in v.fields ==> Parsed(AircraftFields, v)[f] == Bool(false))
  {
    FlagField(AircraftFields, v, "isComplex");
    FlagField(AircraftFields, v, "isHighPerformance");
    FlagField(AircraftFields, v, "isTailwheel");
    FlagField(AircraftFields, v, "isTurbine");
    FlagField(AircraftFields, v, "isMultiEngine");
  }

  // ---------------------------------------------------------------------
  // Approaches
  // ---------------------------------------------------------------------

  /** A parsed approach names a type from the closed list, a 4-character
      airport, and a `circleToLand` flag that is false when omitted. */
  lemma ApproachConstraints(v: Value)
    requires Parse(Shape(ApproachFields), v).Some?
    ensures var a := Parsed(ApproachFields, v);
      && "type" in a && a["type"].Str? && a["type"].s in ApproachTypes
      && "airport" in a && a["airport"].Str? && |a["airport"].s| == 4
      && "circleToLand" in a && a["circleToLand"].Bool?
      && ("circleToLand" !in v.fields ==> a["circleToLand"] == Bool(false))
  {
    ParsedShape(ApproachFields, v, "type");
    ParsedShape(ApproachFields, v, "airport");
    FlagField(ApproachFields, v, "circleToLand");
  }

  // ---------------------------------------------------------------------
  // Flight entries
  // ---------------------------------------------------------------------

  lemma DutyTimesDeclared()
    ensures forall f | f in DutyTimes :: f in FlightEntryFields && FlightEntryFields[f] == Spec(Hours, ZeroDefault)
  {
  }

  lemma ConditionTimesDeclared()
    ensures forall f | f in ConditionTimes :: f in FlightEntryFields && FlightEntryFields[f] == Spec(Hours, ZeroDefault)
  {
  }

  lemma CountsDeclared()
    ensures forall f | f in Landings + ["holds"] :: f in FlightEntryFields && FlightEntryFields[f] == Spec(Count, ZeroDefault)
    ensures "approaches" in FlightEntryFields
    ensures FlightEntryFields["approaches"] == Spec(ListOf(Shape(ApproachFields)), Default(Arr([])))
  {
  }

  lemma AirportsDeclared()
    ensures "departureAirport" in FlightEntryFields
    ensures FlightEntryFields["departureAirport"] == Spec(ExactLength(4), Required)
    ensures "arrivalAirport" in FlightEntryFields
    ensures FlightEntryFields["arrivalAirport"] == Spec(ExactLength(4), Required)
  {
  }

  lemma TotalTimeDeclared()
    ensures "totalTime" in FlightEntryFields && FlightEntryFields["totalTime"] == Spec(Hours, Required)
  {
  }

  /** Departure and arrival are 4-character airport codes. */
  lemma FlightEntryAirports(v: Value)
    requires Parse(Shape(FlightEntryFields), v).Some?
    ensures var e := Parsed(FlightEntryFields, v);
      && "departureAirport" in e && e["departureAirport"].Str? && |e["departureAirport"].s| == 4
      && "arrivalAirport" in e && e["arrivalAirport"].Str? && |e["arrivalAirport"].s| == 4
  {
    AirportsDeclared();
    ParsedShape(FlightEntryFields, v, "departureAirport");
    ParsedShape(FlightEntryFields, v, "arrivalAirport");
  }

  /** Every logged approach names a 4-character airport code. */
  lemma FlightEntryApproachAirports(v: Value)
    requires Parse(Shape(FlightEntryFields), v).Some?
    ensures var e := Parsed(FlightEntryFields, v);
      && "approaches" in e && e["approaches"].Arr?
      && forall i | 0 <= i < |e["approaches"].items| ::
           var a := e["approaches"].items[i];
           a.Obj? && "airport" in a.fields && a.fields["airport"].Str? && |a.fields["airport"].s| == 4
  {
    var e := Parsed(FlightEntryFields, v);
    ParsedShape(FlightEntryFields, v, "approaches");
    assert FlightEntryFields["approaches"].kind == ListOf(Shape(ApproachFields));
    forall i | 0 <= i < |e["approaches"].items|
      ensures var a := e["approaches"].items[i];
        a.Obj? && "airport" in a.fields && a.fields["airport"].Str? && |a.fields["airport"].s| == 4
    {
      var a := e["approaches"].items[i];
      assert Valid(Shape(ApproachFields), a);
      assert ApproachFields["airport"] == Spec(ExactLength(4), Required);
    }
  }

  /** `totalTime` must be given and is at least zero; the duty times are at
      least zero and zero when omitted. */
  lemma FlightEntryDutyTimes(v: Value)
    requires Parse(Shape(FlightEntryFields), v).Some?
    ensures var e := Parsed(FlightEntryFields, v);
      && "totalTime" in v.fields
      && "totalTime" in e && e["totalTime"].Num? && e["totalTime"].n >= 0.0
      && forall f | f in DutyTimes ::
           f in e && e[f].Num? && e[f].n >= 0.0 && (f !in v.fields ==> e[f] == Num(0.0))
  {
    var e := Parsed(FlightEntryFields, v);
    TotalTimeDeclared();
    ParsedShape(FlightEntryFields, v, "totalTime");
    DutyTimesDeclared();
    HoursFields(FlightEntryFields, v, DutyTimes);
  }

  /** Cross-country, night and instrument times are at least zero, and zero
      when omitted. */
  lemma FlightEntryConditionTimes(v: Value)
    requires Parse(Shape(FlightEntryFields), v).Some?
    ensures var e := Parsed(FlightEntryFields, v);
      forall f | f in ConditionTimes ::
        f in e && e[f].Num? && e[f].n >= 0.0 && (f !in v.fields ==> e[f] == Num(0.0))
  {
    ConditionTimesDeclared();
    HoursFields(FlightEntryFields, v, ConditionTimes);
  }

  /** Landing counts and holds are non-negative integers that are zero when
      omitted; omitted approaches are the empty list. */
  lemma FlightEntryCounts(v: Value)
    requires Parse(Shape(FlightEntryFields), v).Some?
    ensures var e := Parsed(FlightEntryFields, v);
      && (forall f | f in Landings + ["holds"] ::
            f in e && e[f].Num? && IsInteger(e[f].n) && e[f].n >= 0.0
            && (f !in v.fields ==> e[f] == Num(0.0)))
      && "approaches" in e && e["approaches"].Arr?
      && ("approaches" !in v.fields ==> e["approaches"] == Arr([]))
  {
    CountsDeclared();
    CountFields(FlightEntryFields, v, Landings + ["holds"]);
    EmptyListDefault(FlightEntryFields, v, "approaches", Shape(ApproachFields));
  }

  /** A flight entry without `totalTime` is rejected. */
  lemma FlightEntryNeedsTotalTime(v: Value)
    requires v.Obj? ==> "totalTime" !in v.fields
    ensures Parse(Shape(FlightEntryFields), v).None?
  {
    MissingRequiredFails(FlightEntryFields, v, "totalTime");
  }

  // ---------------------------------------------------------------------
  // Pilot profiles
  // ---------------------------------------------------------------------

  /** Certificate type and medical class are optional members of closed
      lists, ratings default to the empty list, and a home airport, when
      given, has 4 characters. */
  lemma PilotProfileConstraints(v: Value)
    requires Parse(Shape(PilotProfileFields), v).Some?
    ensures var p := Parsed(PilotProfileFields, v);
      && ("certificateType" in p <==> "certificateType" in v.fields)
      && ("certificateType" in p ==> p["certificateType"].Str? && p["certificateType"].s in CertificateTypes)
      && ("medicalClass" in p <==> "medicalClass" in v.fields)
      && ("medicalClass" in p ==> p["medicalClass"].Str? && p["medicalClass"].s in MedicalClasses)
      && ("homeAirport" in p ==> p["homeAirport"].Str? && |p["homeAirport"].s| == 4)
      && "ratings" in p && p["ratings"].Arr?
      && ("ratings" !in v.fields ==> p["ratings"] == Arr([]))
  {
    ParsedShape(PilotProfileFields, v, "certificateType");
    ParsedShape(PilotProfileFields, v, "medicalClass");
    ParsedShape(PilotProfileFields, v, "homeAirport");
    EmptyListDefault(PilotProfileFields, v, "ratings", AnyString);
  }

  /** A currency requirement carries its `isCurrent` flag as a boolean. */
  lemma CurrencyRequirementConstraints(v: Value)
    requires Parse(Shape(CurrencyRequirementFields), v).Some?
    ensures var c := Parsed(CurrencyRequirementFields, v);
      "isCurrent" in c && c["isCurrent"].Bool? && "expiresAt" in c && c["expiresAt"].Date?
  {
    ParsedShape(CurrencyRequirementFields, v, "isCurrent");
    ParsedShape(CurrencyRequirementFields, v, "expiresAt");
  }
}
