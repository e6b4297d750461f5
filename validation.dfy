/** The rules a mapped listing must pass before it is stored, as the store
    request declares them, and what they mean for a CRM record once it has
    been through the mapper. */
module Validation {
  import opened Php
  import opened Mapper

  // ---------------------------------------------------------------------------
  // Rule primitives

  /** A string made of nothing but trim characters: what `required` rejects,
      and what makes the other rules skip a value. */
  predicate Blank(s: string) {
    forall k :: 0 <= k < |s| ==> IsTrimChar(s[k])
  }

  /** `required`: not null, not a blank string, not an empty array. */
  predicate Present(v: Json) {
    match v
    case JNull => false
    case JStr(s) => !Blank(s)
    case JMap(es) => |es| > 0
    case _ => true
  }

  /** A value that `nullable` rules skip: null or a blank string. */
  predicate Skipped(v: Json) {
    v == JNull || (v.JStr? && Blank(v.s))
  }

  /** `numeric` (`is_numeric`), for integers and integer strings. */
  predicate Numeric(v: Json) {
    v.JInt? || (v.JStr? && Classify(v.s).IntegerString?)
  }

  /** The whitespace `FILTER_VALIDATE_INT` strips from both ends. */
  predicate IsFilterSpace(c: char) {
    c == ' ' || c == '\t' || c == '\r' || c == '\U{B}' || c == '\n'
  }

  function StripFilterSpace(s: string): (t: string)
    ensures |t| <= |s|
    ensures |t| > 0 ==> !IsFilterSpace(t[0]) && !IsFilterSpace(t[|t| - 1])
    ensures forall k :: 0 <= k < |t| ==> t[k] in s
    decreases |s|
  {
    if |s| > 0 && IsFilterSpace(s[0]) then StripFilterSpace(s[1..])
    else if |s| > 0 && IsFilterSpace(s[|s| - 1]) then StripFilterSpace(s[..|s| - 1])
    else s
  }

  /** An optional sign, then "0" or digits without a leading zero. */
  predicate IntegerText(s: string) {
    var body := if |s| > 0 && (s[0] == '-' || s[0] == '+') then s[1..] else s;
    body == "0" || (|body| > 0 && AllDigits(body) && body[0] != '0')
  }

  /** `integer` (`FILTER_VALIDATE_INT`): integers, `true` (read as "1"), and
      integer text after stripping whitespace. */
  predicate IntegerValue(v: Json) {
    match v
    case JInt(_) => true
    case JBool(b) => b
    case JStr(s) => IntegerText(StripFilterSpace(s))
    case _ => false
  }

  /** `email`, reduced to its shape: exactly one `@`, with text on both sides,
      and no whitespace. */
  predicate EmailText(s: string) {
    && (forall c :: c in s ==> !IsTrimChar(c))
    && exists i :: 0 < i < |s| - 1 && s[i] == '@' && '@' !in s[..i] && '@' !in s[i + 1..]
  }

  /** `required|string`. */
  predicate RequiredString(v: Json) {
    v.JStr? && !Blank(v.s)
  }

  /** `required|numeric`. */
  predicate RequiredNumeric(v: Json) {
    Present(v) && Numeric(v)
  }

  /** `nullable|numeric`. */
  predicate OptionalNumeric(v: Json) {
    Skipped(v) || Numeric(v)
  }


  // ---------------------------------------------------------------------------
  // The rules

  /** The rules on the fields the mapper computes from its own tables and
      constants. The JSON-encoded lists (`features`, `images`, `videos`,
      `portals`) are always strings and `off_plan` is always a boolean, so
      their rules always pass and are not listed. */
  predicate ControlledRules(rec: Record) {
    && rec.status in {"live", "inactive"}
    && rec.purpose in {"Sale", "Rent"}
    && !Blank(rec.propertyType)
    && !Blank(rec.sizeUnit)
    && !Blank(rec.city)
    && (rec.rentFrequency.None? || rec.rentFrequency.value in {"Yearly", "Monthly"})
    && rec.furnished in {"Yes", "No", "Partly"}
    && (rec.saleType.None? || rec.saleType.value in {"New", "Resale"})
    && (rec.dldWaiver.None? || rec.dldWaiver.value in {0, 1})
  }

  /** `property_ref_no` (`required|string`) and `permit_number`. */
  predicate ReferenceOk(rec: Record) {
    RequiredString(rec.refNo) && RequiredString(rec.permitNumber)
  }

  /** `unique:properties,property_ref_no` against the references already
      stored. */
  predicate Unique(rec: Record, refs: set<string>) {
    rec.refNo.JStr? && rec.refNo.s !in refs
  }

  /** The size, the plot area and the room counts. */
  predicate SizesOk(rec: Record) {
    && RequiredNumeric(rec.size)
    && OptionalNumeric(rec.plotArea)
    && Present(rec.bedrooms) && IntegerValue(rec.bedrooms)
    && Present(rec.bathrooms) && IntegerValue(rec.bathrooms)
  }

  /** The price, the off-plan original price and the amount paid. */
  predicate PricesOk(rec: Record) {
    && RequiredNumeric(rec.price)
    && OptionalNumeric(rec.originalPrice)
    && OptionalNumeric(rec.amountPaid)
  }

  /** The tower, the title and the description (`last_updated` apart). */
  predicate TextsOk(rec: Record) {
    && (Skipped(rec.towerName) || rec.towerName.JStr?)
    && RequiredString(rec.title)
    && RequiredString(rec.description)
  }

  /** The listing agent's name, phone and email. */
  predicate AgentOk(rec: Record) {
    && RequiredString(rec.agent)
    && RequiredString(rec.agentPhone)
    && rec.agentEmail.JStr? && EmailText(rec.agentEmail.s)
  }

  /** The rules on the fields copied from the CRM record, `unique` apart. */
  predicate InputRules(rec: Record) {
    ReferenceOk(rec) && SizesOk(rec) && PricesOk(rec) && TextsOk(rec) && AgentOk(rec) && !Blank(rec.lastUpdated)
  }

  /** Every rule but `unique`: whether a listing can pass depends on the
      stored references only through its own reference. */
  predicate Conforms(rec: Record) {
    ControlledRules(rec) && InputRules(rec)
  }

  /** The store request's rules, with the references already stored. */
  predicate Valid(rec: Record, refs: set<string>) {
    Conforms(rec) && Unique(rec, refs)
  }

  /** Storing a reference affects only the listing with that reference:
      it fails from then on, and every other listing passes or fails as
      before. */
  lemma ValidAfterStore(rec: Record, refs: set<string>, r: string)
    ensures Valid(rec, refs + {r}) <==> Valid(rec, refs) && rec.refNo != JStr(r)
    ensures Valid(rec, refs) ==> rec.refNo.JStr? && rec.refNo.s !in refs
  {
  }

  // ---------------------------------------------------------------------------
  // What the rules mean for mapped records

  lemma NotBlank(s: string)
    requires |s| > 0 && !IsTrimChar(s[0])
    ensures !Blank(s)
  {
  }

  /** An address built from a local part and a domain, neither holding an
      `@` or whitespace, has the shape the `email` rule asks for. */
  lemma EmailOf(local: string, domain: string)
    requires |local| > 0 && |domain| > 0 && '@' !in local && '@' !in domain
    requires forall c :: c in local + domain ==> !IsTrimChar(c)
    ensures EmailText(local + "@" + domain)
  {
    var s := local + "@" + domain;
    assert s[..|local|] == local;
    assert s[|local| + 1..] == domain;
    assert s[|local|] == '@';
    forall c | c in s
      ensures !IsTrimChar(c)
    {
      assert c in local + domain || c == '@';
    }
  }

  /** The default agent email passes the `email` rule. */
  lemma DefaultEmailValid()
    ensures EmailText("agent@realestate.com")
  {
    assert "agent@realestate.com" == "agent" + "@" + "realestate.com";
    assert forall c :: c in "agent" + "realestate.com" ==> !IsTrimChar(c);
    EmailOf("agent", "realestate.com");
  }

  /** The property type, the city and the size unit are never blank. */
  lemma TablesNotBlank(m: Fields)
    ensures !Blank(MapPropertyType(FieldOr(m, "bi_purpose_type_id", JInt(1))).Or("Apartment"))
    ensures !Blank(MapCity(FieldOr(m, "city_id", JInt(110))).Or("Dubai"))
    ensures !Blank("SQFT")
  {
    var t := MapPropertyType(FieldOr(m, "bi_purpose_type_id", JInt(1))).Or("Apartment");
    assert t in {"Apartment", "Villa", "Townhouse"};
    NotBlank(t);
    var c := MapCity(FieldOr(m, "city_id", JInt(110))).Or("Dubai");
    assert c in {"Dubai", "Abu Dhabi"};
    NotBlank(c);
    NotBlank("SQFT");
  }

  /** The fields the mapper controls never make a listing fail validation. */
  lemma ControlledRulesHold(m: Fields, uniq: string, now: string, parseDate: string -> Option<string>)
    ensures ControlledRules(BuildRecord(m, uniq, now, parseDate))
  {
    TablesNotBlank(m);
  }

  /** The CRM-side condition for a mapped record to pass: a non-blank string
      unit code not yet stored, and fields of the types the rules ask for. */
  predicate Acceptable(m: Fields, refs: set<string>) {
    CrmReferenceOk(m, refs) && CrmSizesOk(m) && CrmPricesOk(m) && CrmTextsOk(m) && SellerAcceptable(m)
  }

  predicate CrmReferenceOk(m: Fields, refs: set<string>) {
    "unit_code" in m && m["unit_code"].JStr? && !Blank(m["unit_code"].s) && m["unit_code"].s !in refs
  }

  predicate CrmSizesOk(m: Fields) {
    && ("area" !in m || RequiredNumeric(m["area"]))
    && ("plot_area" !in m || OptionalNumeric(m["plot_area"]))
    && (!Truthy(FieldOr(m, "bi_bedroom_id", JNull)) || IntegerValue(m["bi_bedroom_id"]))
    && (!Truthy(FieldOr(m, "bi_bathroom_id", JNull)) || IntegerValue(m["bi_bathroom_id"]))
  }

  predicate CrmPricesOk(m: Fields) {
    && (CurrencyIn(m) == JStr("EGP") || !Truthy(PriceIn(m)) || RequiredNumeric(PriceIn(m)))
    && (!OfferingIs(m, 2) || "price" !in m || OptionalNumeric(m["price"]))
    && ("down_payment" !in m || OptionalNumeric(m["down_payment"]))
  }

  predicate CrmTextsOk(m: Fields) {
    && ("building_number" !in m || m["building_number"].JStr?)
    && ("title" !in m || RequiredString(m["title"]))
    && ("description" !in m || RequiredString(m["description"]))
  }

  /** A seller given as an array must carry a name, a phone and a well-formed
      email (or none, taking the default). */
  predicate SellerAcceptable(m: Fields) {
    "seller" in m && m["seller"].JMap? ==>
      var seller := m["seller"].entries;
      && RequiredString(Coalesce(seller, "name", JNull))
      && RequiredString(Coalesce(seller, "phone", JNull))
      && Coalesce(seller, "email", JStr("agent@realestate.com")).JStr?
      && EmailText(Coalesce(seller, "email", JStr("agent@realestate.com")).s)
  }

  // Field by field: each rule on the mapped value against the CRM value.

  lemma SizeRules(m: Fields)
    ensures RequiredNumeric(FieldOr(m, "area", JInt(1000))) <==> ("area" !in m || RequiredNumeric(m["area"]))
    ensures OptionalNumeric(FieldOr(m, "plot_area", JNull)) <==> ("plot_area" !in m || OptionalNumeric(m["plot_area"]))
  {
  }

  lemma TowerRules(m: Fields)
    ensures Skipped(TowerName(m)) || TowerName(m).JStr? <==> ("building_number" !in m || m["building_number"].JStr?)
  {
  }

  lemma RoomRules(id: Json)
    ensures Present(MapRooms(id)) && IntegerValue(MapRooms(id)) <==> !Truthy(id) || IntegerValue(id)
  {
    if id.JStr? && IntegerValue(id) {
      var t := StripFilterSpace(id.s);
      var body := if |t| > 0 && (t[0] == '-' || t[0] == '+') then t[1..] else t;
      assert body[0] == t[|t| - |body|];
      assert !IsTrimChar(body[0]);
    }
  }

  /** A title or description given by the CRM must be a non-blank string;
      the default built from the unit code always is one. */
  lemma TextRules(m: Fields, key: string, prefix: string)
    requires |prefix| > 0 && !IsTrimChar(prefix[0])
    requires !TextOrDefault(m, key, prefix).Warning?
    ensures RequiredString(TextOrDefault(m, key, prefix).Or(JNull)) <==> (key !in m || RequiredString(m[key]))
  {
    if key !in m {
      var t := TextOrDefault(m, key, prefix).v;
      assert t.s[0] == prefix[0];
      NotBlank(t.s);
    }
  }

  /** In the EGP branch the converted price is always an integer; otherwise a
      truthy CRM price must itself be numeric. */
  lemma PriceRules(m: Fields)
    requires !PriceFault(m)
    ensures RequiredNumeric(ConvertPrice(PriceIn(m), CurrencyIn(m)).Or(JNull)) <==>
      (CurrencyIn(m) == JStr("EGP") || !Truthy(PriceIn(m)) || RequiredNumeric(PriceIn(m)))
  {
  }

  lemma AgentRules(m: Fields)
    ensures (RequiredString(Agent(m).name) && RequiredString(Agent(m).phone) &&
             Agent(m).email.JStr? && EmailText(Agent(m).email.s)) <==> SellerAcceptable(m)
  {
    DefaultEmailValid();
    NotBlank("Default Agent");
    NotBlank("+971-50-123-4567");
  }

  // Group by group, on the listing itself.

  lemma MappedReference(m: Fields, uniq: string, now: string, parseDate: string -> Option<string>, refs: set<string>)
    ensures ReferenceOk(BuildRecord(m, uniq, now, parseDate)) && Unique(BuildRecord(m, uniq, now, parseDate), refs)
      <==> CrmReferenceOk(m, refs)
  {
  }

  lemma MappedSizes(m: Fields, uniq: string, now: string, parseDate: string -> Option<string>)
    ensures SizesOk(BuildRecord(m, uniq, now, parseDate)) <==> CrmSizesOk(m)
  {
    SizeRules(m);
    RoomRules(FieldOr(m, "bi_bedroom_id", JInt(1)));
    RoomRules(FieldOr(m, "bi_bathroom_id", JInt(1)));
  }

  lemma MappedPrices(m: Fields, uniq: string, now: string, parseDate: string -> Option<string>)
    requires !PriceFault(m)
    ensures PricesOk(BuildRecord(m, uniq, now, parseDate)) <==> CrmPricesOk(m)
  {
    PriceRules(m);
  }

  lemma MappedTexts(m: Fields, uniq: string, now: string, parseDate: string -> Option<string>)
    requires !TextFault(m)
    ensures TextsOk(BuildRecord(m, uniq, now, parseDate)) <==> CrmTextsOk(m)
  {
    TowerRules(m);
    TextRules(m, "title", "Property ");
    TextRules(m, "description", "Property description for ");
  }

  lemma MappedAgent(m: Fields, uniq: string, now: string, parseDate: string -> Option<string>)
    ensures AgentOk(BuildRecord(m, uniq, now, parseDate)) <==> SellerAcceptable(m)
  {
    AgentRules(m);
  }

  /** The rules accept a mapped listing exactly when the CRM record is
      acceptable and the update time is not blank. */
  lemma MappedValid(m: Fields, uniq: string, now: string, parseDate: string -> Option<string>, refs: set<string>)
    requires FirstFault(m).None?
    ensures Valid(BuildRecord(m, uniq, now, parseDate), refs) <==>
      Acceptable(m, refs) && !Blank(FormatDateTime(Field(m, "updated_at"), now, parseDate))
  {
    ControlledRulesHold(m, uniq, now, parseDate);
    MappedReference(m, uniq, now, parseDate, refs);
    MappedSizes(m, uniq, now, parseDate);
    MappedPrices(m, uniq, now, parseDate);
    MappedTexts(m, uniq, now, parseDate);
    MappedAgent(m, uniq, now, parseDate);
  }

  /** A record without a unit code gets a generated reference but no permit
      number, so it never passes: generated references are never stored. */
  lemma GeneratedReferenceRejected(m: Fields, uniq: string, now: string, parseDate: string -> Option<string>)
    requires "unit_code" !in m
    ensures !Conforms(BuildRecord(m, uniq, now, parseDate))
  {
    assert BuildRecord(m, uniq, now, parseDate).permitNumber == JNull;
  }
}
