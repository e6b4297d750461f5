/** The field mapper of the CRM import: one CRM record to one canonical listing,
    through finite lookup tables with defaults, the purpose and rent-frequency
    rules, the one-currency price conversion, the off-plan fields and the list
    sanitiser. */
module Mapper {
  import opened Php

  /** The canonical listing, one field per column of the properties table.
      Fields copied unchanged from the CRM record keep their JSON value, since
      the validator, not the mapper, decides whether they have the right type. */
  datatype Record = Record(
    refNo: Json,
    permitNumber: Json,
    status: string,
    purpose: string,
    propertyType: string,
    size: Json,
    sizeUnit: string,
    plotArea: Json,
    bedrooms: Json,
    bathrooms: Json,
    city: string,
    locality: string,
    subLocality: Option<string>,
    towerName: Json,
    title: Json,
    titleAr: Json,
    description: Json,
    descriptionAr: Json,
    price: Json,
    rentFrequency: Option<string>,
    furnished: string,
    offPlan: bool,
    saleType: Option<string>,
    dldWaiver: Option<int>,
    originalPrice: Json,
    amountPaid: Json,
    features: seq<Json>,
    images: seq<Json>,
    videos: seq<Json>,
    portals: seq<Json>,
    agent: Json,
    agentPhone: Json,
    agentEmail: Json,
    lastUpdated: string)

  /** What mapping one record does: it yields a record, or raises an exception
      the per-record handler catches (a PHP warning turned into an
      ErrorException), or raises a TypeError, which no handler in the command
      catches. */
  datatype MapOutcome = Mapped(rec: Record) | Failed(field: string) | Crashed(field: string)

  // ---------------------------------------------------------------------------
  // Lookup tables and rules

  /** mapStatus: "live" exactly for the string "Available" (strict `===`). */
  function MapStatus(availability: Json): (status: string)
    ensures status == "live" <==> availability == JStr("Available")
    ensures status in {"live", "inactive"}
  {
    if availability == JStr("Available") then "live" else "inactive"
  }

  /** The purpose-type ids that make a sale (`in_array` compares loosely). */
  predicate SaleTypeId(purposeTypeId: Json) {
    LooseEqInt(purposeTypeId, 1) || LooseEqInt(purposeTypeId, 2) || LooseEqInt(purposeTypeId, 3)
  }

  /** mapPurpose: "Sale" for purpose 1 with a sale type, otherwise "Rent". */
  function MapPurpose(purposeId: Json, purposeTypeId: Json): (purpose: string)
    ensures purpose == "Sale" <==> LooseEqInt(purposeId, 1) && SaleTypeId(purposeTypeId)
    ensures purpose in {"Sale", "Rent"}
  {
    if LooseEqInt(purposeId, 1) && SaleTypeId(purposeTypeId) then "Sale" else "Rent"
  }

  /** An array used as an array offset is a TypeError in PHP 8. */
  function Lookup(id: Json, table: map<int, string>, default: string): (r: Eval<string>)
    ensures r.TypeError? <==> id.JMap?
    ensures r.Value? <==> !id.JMap?
    ensures r.Value? ==> r.v == default || r.v in table.Values
  {
    if id.JMap? then TypeError
    else
      var key := OffsetInt(id);
      if key.Some? && key.value in table then Value(table[key.value]) else Value(default)
  }

  const PropertyTypes: map<int, string> := map[1 := "Apartment", 2 := "Villa", 3 := "Townhouse"]
  const Cities: map<int, string> := map[110 := "Dubai", 52758 := "Dubai", 52970 := "Abu Dhabi"]
  const Localities: map<int, string> := map[53131 := "Downtown Dubai"]
  const SubLocalities: map<int, string> := map[53132 := "Burj Khalifa Area"]
  const Furnishings: map<int, string> := map[1 := "Yes", 2 := "No", 3 := "Partly"]

  /** mapPropertyType: the three known types, "Apartment" otherwise. */
  function MapPropertyType(purposeTypeId: Json): (r: Eval<string>)
    ensures r.TypeError? <==> purposeTypeId.JMap?
    ensures r.Value? ==> (r.v == "Villa" <==> OffsetInt(purposeTypeId) == Some(2))
    ensures r.Value? ==> (r.v == "Townhouse" <==> OffsetInt(purposeTypeId) == Some(3))
    ensures r.Value? ==> (r.v == "Apartment" <==> OffsetInt(purposeTypeId) != Some(2) && OffsetInt(purposeTypeId) != Some(3))
    ensures r.Value? ==> r.v in {"Apartment", "Villa", "Townhouse"}
  {
    Lookup(purposeTypeId, PropertyTypes, "Apartment")
  }

  /** mapCity: "Abu Dhabi" only for id 52970, "Dubai" otherwise. */
  function MapCity(cityId: Json): (r: Eval<string>)
    ensures r.TypeError? <==> cityId.JMap?
    ensures r.Value? ==> (r.v == "Abu Dhabi" <==> OffsetInt(cityId) == Some(52970))
    ensures r.Value? ==> r.v in {"Dubai", "Abu Dhabi"}
  {
    Lookup(cityId, Cities, "Dubai")
  }

  /** mapLocality and mapSubLocality: a one-entry table, null otherwise. */
  function MapPlace(id: Json, table: map<int, string>): (r: Eval<Option<string>>)
    ensures r.TypeError? <==> id.JMap?
    ensures r.Value? ==> (r.v.Some? <==> OffsetInt(id).Some? && OffsetInt(id).value in table)
    ensures r.Value? && r.v.Some? ==> r.v.value == table[OffsetInt(id).value]
  {
    if id.JMap? then TypeError
    else
      var key := OffsetInt(id);
      Value(if key.Some? && key.value in table then Some(table[key.value]) else None)
  }

  /** The two place tables: id 53131 is "Downtown Dubai" and id 53132 is
      "Burj Khalifa Area"; every other id that is not an array maps to null. */
  lemma PlaceTables(id: Json)
    ensures !id.JMap? ==>
      MapPlace(id, Localities) == Value(if OffsetInt(id) == Some(53131) then Some("Downtown Dubai") else None)
    ensures !id.JMap? ==>
      MapPlace(id, SubLocalities) == Value(if OffsetInt(id) == Some(53132) then Some("Burj Khalifa Area") else None)
  {
  }

  /** mapFurnished: Yes, No or Partly, "No" when the id is unknown. */
  function MapFurnished(furnishingId: Json): (r: Eval<string>)
    ensures r.TypeError? <==> furnishingId.JMap?
    ensures r.Value? ==> (r.v == "Yes" <==> OffsetInt(furnishingId) == Some(1))
    ensures r.Value? ==> (r.v == "Partly" <==> OffsetInt(furnishingId) == Some(3))
    ensures r.Value? ==> (r.v == "No" <==> OffsetInt(furnishingId) != Some(1) && OffsetInt(furnishingId) != Some(3))
    ensures r.Value? ==> r.v in {"Yes", "No", "Partly"}
  {
    Lookup(furnishingId, Furnishings, "No")
  }

  /** mapBedrooms and mapBathrooms (`$id ?: 1`): a falsy id becomes 1. */
  function MapRooms(id: Json): (rooms: Json)
    ensures Truthy(rooms)
    ensures Truthy(id) ==> rooms == id
    ensures !Truthy(id) ==> rooms == JInt(1)
  {
    if Truthy(id) then id else JInt(1)
  }

  /** mapRentFrequency: only off the sale purpose and with an installment
      count; twelve or more installments is yearly. */
  function MapRentFrequency(purposeId: Json, installments: Option<Json>): (r: Option<string>)
    ensures r.Some? <==> !LooseEqInt(purposeId, 1) && installments.Some?
    ensures r == Some("Yearly") <==> r.Some? && LooseAtLeast(installments.value, 12)
    ensures r.Some? ==> r.value in {"Yearly", "Monthly"}
  {
    if !LooseEqInt(purposeId, 1) && installments.Some? then
      Some(if LooseAtLeast(installments.value, 12) then "Yearly" else "Monthly")
    else None
  }

  /** mapOfferingType: a `match`, so the comparison is strict. */
  function MapOfferingType(offeringTypeId: Json): (r: Option<string>)
    ensures r == Some("New") <==> offeringTypeId == JInt(1)
    ensures r == Some("Resale") <==> offeringTypeId == JInt(2)
    ensures r.None? || r.value in {"New", "Resale"}
  {
    if offeringTypeId == JInt(1) then Some("New")
    else if offeringTypeId == JInt(2) then Some("Resale")
    else None
  }

  // ---------------------------------------------------------------------------
  // Price

  /** PHP's `round($i / 10)` for an integer: to the nearest integer, halves away
      from zero. */
  function RoundTenth(i: int): (r: int)
    ensures i >= 0 ==> 10 * r - 5 <= i < 10 * r + 5
    ensures i < 0 ==> 10 * r - 5 < i <= 10 * r + 5
  {
    if i >= 0 then (i + 5) / 10 else -((-i + 5) / 10)
  }

  /** The placeholder price: the price of a record without one, and what a
      falsy price converts to. An absent EGP price is this placeholder divided
      by ten. */
  const PlaceholderPrice: int := 100000

  /** convertPrice: EGP prices are divided by ten and rounded, any other
      currency passes through; a falsy price becomes the placeholder. In the
      EGP branch, dividing an array or a non-numeric string is a TypeError and
      a leading-numeric string raises a warning. */
  function ConvertPrice(price: Json, currency: Json): (r: Eval<Json>)
    ensures !Truthy(price) ==> r == Value(JInt(PlaceholderPrice))
    ensures currency != JStr("EGP") && Truthy(price) ==> r == Value(price)
    ensures currency == JStr("EGP") && price.JInt? && price.i != 0 ==> r == Value(JInt(RoundTenth(price.i)))
    ensures currency == JStr("EGP") && Truthy(price) && price.JStr? && Classify(price.s).IntegerString? ==>
      r == Value(JInt(RoundTenth(Classify(price.s).value)))
    ensures r.TypeError? <==>
      (currency == JStr("EGP") && Truthy(price) &&
       (price.JMap? || (price.JStr? && Classify(price.s).NotNumeric?)))
    ensures r.Warning? <==>
      (currency == JStr("EGP") && Truthy(price) && price.JStr? && Classify(price.s).LeadingInteger?)
  {
    if !Truthy(price) then Value(JInt(PlaceholderPrice))
    else if currency != JStr("EGP") then Value(price)
    else match price
      case JInt(i) => Value(JInt(RoundTenth(i)))
      case JBool(_) => Value(JInt(0))
      case JStr(s) =>
        (match Classify(s)
         case IntegerString(v) => Value(JInt(RoundTenth(v)))
         case LeadingInteger(_) => Warning
         case NotNumeric => TypeError)
      case JMap(_) => TypeError
      case JNull => Value(JInt(PlaceholderPrice))
  }

  /** An EGP price is divided by ten; a USD price passes through. */
  lemma ConvertPriceExamples()
    ensures ConvertPrice(JInt(500000), JStr("EGP")) == Value(JInt(50000))
    ensures ConvertPrice(JInt(500000), JStr("USD")) == Value(JInt(500000))
    ensures ConvertPrice(JInt(-15), JStr("EGP")) == Value(JInt(-2))
    ensures ConvertPrice(JInt(0), JStr("EGP")) == Value(JInt(PlaceholderPrice))
    ensures ConvertPrice(JInt(PlaceholderPrice), JStr("EGP")) == Value(JInt(10000))
  {
  }

  // ---------------------------------------------------------------------------
  // List sanitiser

  /** What one list element becomes: an array is reduced to its `id`, else its
      `name`, else its `value`, else its JSON text (none of these trimmed); a
      string is trimmed; any other scalar is cast to a string. */
  function ReduceElement(v: Json): (r: Json)
    ensures !v.JMap? ==> r.JStr?
    ensures v.JStr? ==> r == JStr(Trim(v.s))
  {
    match v
    case JMap(m) =>
      if Get(m, "id").Some? then Get(m, "id").value
      else if Get(m, "name").Some? then Get(m, "name").value
      else if Get(m, "value").Some? then Get(m, "value").value
      else JStr(JsonText(v))
    case JStr(s) => JStr(Trim(s))
    case _ => JStr(StringValue(v).v)
  }

  /** What each kind of element reduces to: an array to its first set key
      among `id`, `name` and `value`, else to its JSON text; a string to its
      trim; another scalar to its string conversion. */
  lemma ReduceElementCases(v: Json)
    ensures !v.JMap? && !v.JStr? ==> ReduceElement(v) == JStr(StringValue(v).v)
    ensures v.JMap? && Get(v.entries, "id").Some? ==> ReduceElement(v) == Get(v.entries, "id").value
    ensures v.JMap? && Get(v.entries, "id").None? && Get(v.entries, "name").Some? ==>
      ReduceElement(v) == Get(v.entries, "name").value
    ensures v.JMap? && Get(v.entries, "id").None? && Get(v.entries, "name").None? && Get(v.entries, "value").Some? ==>
      ReduceElement(v) == Get(v.entries, "value").value
    ensures v.JMap? && Get(v.entries, "id").None? && Get(v.entries, "name").None? && Get(v.entries, "value").None? ==>
      ReduceElement(v) == JStr(JsonText(v))
  {
  }

  /** What one element contributes: its reduction, when that is truthy. */
  function Kept(v: Json): seq<Json> {
    if Truthy(ReduceElement(v)) then [ReduceElement(v)] else []
  }

  /** `array_filter(array_map(...), fn($v) => !empty($v))`: reduce every
      element, keep the truthy results in order. */
  function SanitizeValues(vs: seq<Json>): (out: seq<Json>)
    ensures |out| <= |vs|
    ensures forall k :: 0 <= k < |out| ==> Truthy(out[k])
  {
    if |vs| == 0 then [] else Kept(vs[0]) + SanitizeValues(vs[1..])
  }

  /** What the sanitiser keeps is exactly the truthy reductions: everything
      kept is the reduction of some element, and every element whose
      reduction is truthy is kept. */
  lemma {:induction false} SanitizeValuesSpec(vs: seq<Json>)
    ensures forall x :: x in SanitizeValues(vs) ==> exists j :: 0 <= j < |vs| && x == ReduceElement(vs[j])
    ensures forall j :: 0 <= j < |vs| && Truthy(ReduceElement(vs[j])) ==> ReduceElement(vs[j]) in SanitizeValues(vs)
  {
    if |vs| > 0 {
      var head := Kept(vs[0]);
      var rest := SanitizeValues(vs[1..]);
      SanitizeValuesSpec(vs[1..]);
      assert SanitizeValues(vs) == head + rest;
      forall x | x in head + rest
        ensures exists j :: 0 <= j < |vs| && x == ReduceElement(vs[j])
      {
        if x in rest {
          var j :| 0 <= j < |vs[1..]| && x == ReduceElement(vs[1..][j]);
          assert vs[1..][j] == vs[j + 1];
        } else {
          assert x == ReduceElement(vs[0]);
        }
      }
      forall j | 0 <= j < |vs| && Truthy(ReduceElement(vs[j]))
        ensures ReduceElement(vs[j]) in head + rest
      {
        if j > 0 {
          assert vs[1..][j - 1] == vs[j];
        }
      }
    }
  }

  /** sanitizeArray: an array is sanitised element by element; a non-empty
      string is split on commas and each piece trimmed and kept when non-empty;
      anything else yields an empty list. */
  function Sanitize(input: Json): (out: seq<Json>)
    ensures !input.JMap? && !input.JStr? ==> out == []
    ensures forall k :: 0 <= k < |out| ==> Truthy(out[k])
    ensures input.JMap? ==> forall j :: 0 <= j < |input.entries| && Truthy(ReduceElement(input.entries[j].1)) ==>
      ReduceElement(input.entries[j].1) in out
    ensures input.JMap? ==> forall x :: x in out ==>
      exists j :: 0 <= j < |input.entries| && x == ReduceElement(input.entries[j].1)
  {
    match input
    case JMap(m) => SanitizeValuesSpec(Values(m)); SanitizeValues(Values(m))
    case JStr(s) =>
      if Truthy(input) then
        SanitizeValues(Pieces(Explode(s)))
      else []
    case _ => []
  }

  /** The sanitiser keeps the relative order of what it keeps. */
  lemma {:induction false} SanitizeValuesAppend(a: seq<Json>, b: seq<Json>)
    ensures SanitizeValues(a + b) == SanitizeValues(a) + SanitizeValues(b)
  {
    if |a| > 0 {
      assert (a + b)[1..] == a[1..] + b;
      assert (a + b)[0] == a[0];
      SanitizeValuesAppend(a[1..], b);
      var head := Kept(a[0]);
      assert SanitizeValues(a + b) == head + SanitizeValues(a[1..] + b);
      assert SanitizeValues(a) == head + SanitizeValues(a[1..]);
      assert head + (SanitizeValues(a[1..]) + SanitizeValues(b)) == (head + SanitizeValues(a[1..])) + SanitizeValues(b);
    } else {
      assert a + b == b;
    }
  }

  /** Elements that are not arrays come out as non-empty strings other than
      "0", and such an element is kept exactly when its text is neither. */
  lemma SanitizeScalars(vs: seq<Json>)
    requires forall k :: 0 <= k < |vs| ==> !vs[k].JMap?
    ensures forall k :: 0 <= k < |SanitizeValues(vs)| ==>
      SanitizeValues(vs)[k].JStr? && SanitizeValues(vs)[k].s != "" && SanitizeValues(vs)[k].s != "0"
    ensures forall j :: 0 <= j < |vs| ==>
      (ReduceElement(vs[j]) in SanitizeValues(vs) <==> ReduceElement(vs[j]).s != "" && ReduceElement(vs[j]).s != "0")
  {
    var out := SanitizeValues(vs);
    SanitizeValuesSpec(vs);
    forall k | 0 <= k < |out|
      ensures out[k].JStr? && out[k].s != "" && out[k].s != "0"
    {
      assert out[k] in out;
      var j :| 0 <= j < |vs| && out[k] == ReduceElement(vs[j]);
    }
  }

  /** A clean list piece: a trimmed, non-empty string other than "0" without
      commas. */
  predicate CleanPiece(v: Json) {
    v.JStr? && v.s != "" && v.s != "0" && ',' !in v.s &&
    !IsTrimChar(v.s[0]) && !IsTrimChar(v.s[|v.s| - 1])
  }

  lemma TrimPiece(s: string)
    requires ',' !in s
    ensures Truthy(JStr(Trim(s))) ==> CleanPiece(JStr(Trim(s)))
  {
    TrimIsInfix(s);
  }

  /** Strings without commas come out as clean pieces. */
  lemma SanitizeTexts(vs: seq<Json>)
    requires forall k :: 0 <= k < |vs| ==> vs[k].JStr? && ',' !in vs[k].s
    ensures forall k :: 0 <= k < |SanitizeValues(vs)| ==> CleanPiece(SanitizeValues(vs)[k])
  {
    var out := SanitizeValues(vs);
    SanitizeValuesSpec(vs);
    forall k | 0 <= k < |out|
      ensures CleanPiece(out[k])
    {
      assert out[k] in out;
      var j :| 0 <= j < |vs| && out[k] == ReduceElement(vs[j]);
      TrimPiece(vs[j].s);
    }
  }

  /** The pieces of a comma list, as list elements. */
  function Pieces(parts: seq<string>): (vs: seq<Json>)
    ensures |vs| == |parts|
  {
    seq(|parts|, k requires 0 <= k < |parts| => JStr(parts[k]))
  }

  /** Comma-free pieces are sanitised into exactly their truthy trims. */
  lemma PiecesKept(parts: seq<string>)
    requires forall k :: 0 <= k < |parts| ==> ',' !in parts[k]
    ensures forall k :: 0 <= k < |SanitizeValues(Pieces(parts))| ==> CleanPiece(SanitizeValues(Pieces(parts))[k])
    ensures forall k :: 0 <= k < |SanitizeValues(Pieces(parts))| ==>
      exists p :: p in parts && SanitizeValues(Pieces(parts))[k] == JStr(Trim(p))
    ensures forall p :: p in parts && Truthy(JStr(Trim(p))) ==> JStr(Trim(p)) in SanitizeValues(Pieces(parts))
  {
    var vs := Pieces(parts);
    var out := SanitizeValues(vs);
    SanitizeTexts(vs);
    SanitizeValuesSpec(vs);
    forall k | 0 <= k < |out|
      ensures exists p :: p in parts && out[k] == JStr(Trim(p))
    {
      assert out[k] in out;
      var j :| 0 <= j < |vs| && out[k] == ReduceElement(vs[j]);
      assert parts[j] in parts;
    }
    forall p | p in parts && Truthy(JStr(Trim(p)))
      ensures JStr(Trim(p)) in out
    {
      var j :| 0 <= j < |parts| && parts[j] == p;
      assert ReduceElement(vs[j]) == JStr(Trim(p));
    }
  }

  /** A comma-separated string yields exactly its trimmed non-empty pieces:
      each kept piece is clean and comes from the string, and every piece that
      trims to something truthy is kept. */
  lemma SanitizeCommaList(s: string)
    ensures forall k :: 0 <= k < |Sanitize(JStr(s))| ==> CleanPiece(Sanitize(JStr(s))[k])
    ensures forall k :: 0 <= k < |Sanitize(JStr(s))| ==>
      exists p :: p in Explode(s) && Sanitize(JStr(s))[k] == JStr(Trim(p))
    ensures forall p :: p in Explode(s) && Truthy(JStr(Trim(p))) ==> JStr(Trim(p)) in Sanitize(JStr(s))
  {
    if Truthy(JStr(s)) {
      assert Sanitize(JStr(s)) == SanitizeValues(Pieces(Explode(s)));
      PiecesKept(Explode(s));
    } else {
      assert Sanitize(JStr(s)) == [];
      FalsyTextPieces(s);
    }
  }

  lemma FalsyTextPieces(s: string)
    requires !Truthy(JStr(s))
    ensures forall p :: p in Explode(s) ==> !Truthy(JStr(Trim(p)))
  {
    if s == "" {
      assert Explode(s) == [""];
    } else {
      assert s == "0";
      ExplodeStep(s, "");
      assert ['0'] + "" == "0";
    }
  }

  /** A one-element list keeps the element's reduction exactly when it is truthy. */
  lemma SanitizeSingle(x: Json)
    ensures SanitizeValues([x]) == if Truthy(ReduceElement(x)) then [ReduceElement(x)] else []
  {
    assert [x][1..] == [];
  }

  /** Two comma-separated pieces, the first trimming to something truthy
      and the second not (blank, or "0" with spaces): only the first piece's
      trim is kept. */
  lemma SanitizePairExample(a: string, b: string)
    requires ',' !in a && ',' !in b
    requires Truthy(JStr(Trim(a))) && !Truthy(JStr(Trim(b)))
    ensures Sanitize(JStr(a + "," + b)) == [JStr(Trim(a))]
  {
    assert |a| > 0;
    SanitizeTwoPieces(a, b);
    SanitizePair(JStr(a), JStr(b));
    assert Kept(JStr(a)) == [JStr(Trim(a))];
    assert Kept(JStr(b)) == [];
  }

  /** A string of two comma-free pieces is sanitised as those two pieces. */
  lemma SanitizeTwoPieces(a: string, b: string)
    requires ',' !in a && ',' !in b && |a| > 0
    ensures Sanitize(JStr(a + "," + b)) == SanitizeValues([JStr(a), JStr(b)])
  {
    var s := a + "," + b;
    assert Truthy(JStr(s)) by {
      assert s[|a|] == ',';
    }
    assert Explode(s) == [a, b] by {
      ExplodeBeforeComma(a, b);
      ExplodeNoComma(b);
    }
    assert Pieces([a, b]) == [JStr(a), JStr(b)];
  }

  lemma SanitizePair(x: Json, y: Json)
    ensures SanitizeValues([x, y]) == Kept(x) + Kept(y)
  {
    SanitizeSingle(y);
    assert [x, y][1..] == [y];
  }

  /** Every character of `trim($s)` comes from `s`. */
  lemma TrimIsInfix(s: string)
    ensures forall c :: c in Trim(s) ==> c in s
  {
    var a := TrimStart(s);
    assert forall c :: c in a ==> c in s by {
      forall c | c in a ensures c in s {
        var k :| 0 <= k < |a| && a[k] == c;
        assert s[|s| - |a| + k] == c;
      }
    }
    assert forall c :: c in TrimEnd(a) ==> c in a by {
      forall c | c in TrimEnd(a) ensures c in a {
        var k :| 0 <= k < |TrimEnd(a)| && TrimEnd(a)[k] == c;
        assert a[k] == c;
      }
    }
  }

  // ---------------------------------------------------------------------------
  // The record

  /** The fields of a CRM record that are set (`isset`): present and not null. */
  type Fields = m: map<string, Json> | forall k :: k in m ==> m[k] != JNull

  /** The set fields of a record, the first occurrence of a key winning as
      in lookup. */
  function FieldMap(raw: Entries): (m: Fields)
    ensures forall k :: Get(raw, k) == (if k in m then Some(m[k]) else None)
  {
    if |raw| == 0 then map[]
    else
      var rest := FieldMap(raw[1..]);
      if raw[0].1 == JNull then rest - {raw[0].0} else rest[raw[0].0 := raw[0].1]
  }

  function Field(m: Fields, k: string): Option<Json> {
    if k in m then Some(m[k]) else None
  }

  /** `$raw[k] ?? d`. */
  function FieldOr(m: Fields, k: string, d: Json): Json {
    if k in m then m[k] else d
  }

  /** `$raw[key] ?? prefix . ($raw['unit_code'] ?? null)`: concatenating an
      array raises the "Array to string conversion" warning. */
  function TextOrDefault(m: Fields, key: string, prefix: string): (r: Eval<Json>)
    ensures key in m ==> r == Value(m[key])
    ensures key !in m && "unit_code" !in m ==> r == Value(JStr(prefix))
    ensures key !in m && "unit_code" in m && !m["unit_code"].JMap? ==>
      r == Value(JStr(prefix + StringValue(m["unit_code"]).v))
    ensures r.Warning? <==> key !in m && FieldOr(m, "unit_code", JNull).JMap?
    ensures !r.TypeError?
  {
    if key in m then Value(m[key])
    else match StringValue(FieldOr(m, "unit_code", JNull))
      case Value(code) => assert "unit_code" !in m ==> prefix + code == prefix; Value(JStr(prefix + code))
      case _ => Warning
  }

  /** The tower: the building number unless it reads "Access Denied". */
  function TowerName(m: Fields): (tower: Json)
    ensures tower == JNull <==> "building_number" !in m || m["building_number"] == JStr("Access Denied")
    ensures tower != JNull ==> tower == m["building_number"]
  {
    if "building_number" in m && m["building_number"] != JStr("Access Denied") then m["building_number"] else JNull
  }

  /** formatDateTime: a non-empty string goes through the date parser, and
      every other value, or a string the parser rejects, gives the clock. */
  function FormatDateTime(updatedAt: Option<Json>, now: string, parseDate: string -> Option<string>): (r: string)
    ensures (updatedAt.None? || !updatedAt.value.JStr? || !Truthy(updatedAt.value)) ==> r == now
    ensures r != now ==> updatedAt.Some? && updatedAt.value.JStr? && parseDate(updatedAt.value.s) == Some(r)
    ensures updatedAt.Some? && updatedAt.value.JStr? && Truthy(updatedAt.value) && parseDate(updatedAt.value.s).Some? ==>
      r == parseDate(updatedAt.value.s).value
  {
    match updatedAt
    case Some(JStr(s)) => if Truthy(JStr(s)) then parseDate(s).GetOr(now) else now
    case _ => now
  }

  /** The off-plan columns. */
  datatype OffPlanTerms = OffPlanTerms(
    offPlan: bool, saleType: Option<string>, dldWaiver: Option<int>, originalPrice: Json, amountPaid: Json)

  /** The offering type id, when set, compared loosely with `n`. */
  predicate OfferingIs(m: Fields, n: int) {
    "bi_offering_type_id" in m && LooseEqInt(m["bi_offering_type_id"], n)
  }

  /** The off-plan fields: off plan when not delivered; the DLD waiver, 0
      exactly when a down payment is set, only for new offerings; the original
      price only for resale offerings. */
  function OffPlan(m: Fields): (t: OffPlanTerms)
    ensures t.offPlan <==> "is_delivered" in m && LooseEqInt(m["is_delivered"], 0)
    ensures t.dldWaiver.Some? <==> OfferingIs(m, 1)
    ensures t.dldWaiver.Some? ==> (t.dldWaiver.value == 0 <==> Truthy(FieldOr(m, "down_payment", JNull)))
    ensures t.dldWaiver.Some? ==> t.dldWaiver.value in {0, 1}
    ensures t.originalPrice != JNull ==> OfferingIs(m, 2) && "price" in m && t.originalPrice == m["price"]
    ensures OfferingIs(m, 2) && "price" in m ==> t.originalPrice == m["price"]
    ensures t.saleType == Some("New") ==> t.dldWaiver.Some?
    ensures t.saleType == Some("Resale") && "price" in m ==> t.originalPrice == m["price"]
    ensures t.amountPaid != JNull <==> "down_payment" in m
  {
    OffPlanTerms(
      offPlan := "is_delivered" in m && LooseEqInt(m["is_delivered"], 0),
      saleType := MapOfferingType(FieldOr(m, "bi_offering_type_id", JNull)),
      dldWaiver := if OfferingIs(m, 1) then Some(if Truthy(FieldOr(m, "down_payment", JNull)) then 0 else 1) else None,
      originalPrice := if OfferingIs(m, 2) then FieldOr(m, "price", JNull) else JNull,
      amountPaid := FieldOr(m, "down_payment", JNull))
  }

  /** The listing agent's name, phone and email. */
  datatype AgentTerms = AgentTerms(name: Json, phone: Json, email: Json)

  /** The agent comes from an array `seller`, the email defaulting on its
      own; without one, all three defaults. */
  function Agent(m: Fields): (a: AgentTerms)
    ensures "seller" in m && m["seller"].JMap? ==>
      a.name == Coalesce(m["seller"].entries, "name", JNull) &&
      a.phone == Coalesce(m["seller"].entries, "phone", JNull) &&
      a.email == Coalesce(m["seller"].entries, "email", JStr("agent@realestate.com"))
    ensures !("seller" in m && m["seller"].JMap?) ==>
      a == AgentTerms(JStr("Default Agent"), JStr("+971-50-123-4567"), JStr("agent@realestate.com"))
    ensures a.email != JNull
  {
    if "seller" in m && m["seller"].JMap? then
      var seller := m["seller"].entries;
      AgentTerms(Coalesce(seller, "name", JNull), Coalesce(seller, "phone", JNull),
                 Coalesce(seller, "email", JStr("agent@realestate.com")))
    else AgentTerms(JStr("Default Agent"), JStr("+971-50-123-4567"), JStr("agent@realestate.com"))
  }

  /** The media list, falling back to a one-element list of a truthy featured image. */
  function MediaInput(m: Fields): Json {
    if "media" in m then m["media"]
    else
      var featured := FieldOr(m, "featured_image", JNull);
      if Truthy(featured) then JMap([("0", featured)]) else JMap([])
  }

  /** The video list: a one-element list of a truthy embed URL. */
  function VideoInput(m: Fields): Json {
    var url := FieldOr(m, "video_embed_url", JNull);
    if Truthy(url) then JMap([("0", url)]) else JMap([])
  }

  /** The videos: at most the one embed URL, trimmed when it is a string. */
  lemma Videos(m: Fields)
    ensures !Truthy(FieldOr(m, "video_embed_url", JNull)) ==> Sanitize(VideoInput(m)) == []
    ensures |Sanitize(VideoInput(m))| <= 1
    ensures FieldOr(m, "video_embed_url", JNull).JStr? && Truthy(JStr(Trim(m["video_embed_url"].s))) ==>
      Sanitize(VideoInput(m)) == [JStr(Trim(m["video_embed_url"].s))]
  {
    var url := FieldOr(m, "video_embed_url", JNull);
    if Truthy(url) {
      SanitizeOne(url);
    } else {
      assert Values([]) == [];
    }
  }

  /** A one-element array keeps its element's reduction when that is truthy. */
  lemma SanitizeOne(v: Json)
    ensures Sanitize(JMap([("0", v)])) == (if Truthy(ReduceElement(v)) then [ReduceElement(v)] else [])
  {
    var vs := Values([("0", v)]);
    assert vs == [v];
    assert vs[1..] == [];
  }

  // ---------------------------------------------------------------------------
  // Faults

  /** The price and currency the mapper hands to convertPrice. */
  function PriceIn(m: Fields): Json {
    FieldOr(m, "price", JInt(PlaceholderPrice))
  }

  function CurrencyIn(m: Fields): Json {
    FieldOr(m, "currency_code", JStr("USD"))
  }

  /** One of the four ids looked up before the title is an array. */
  predicate PlaceOffsetArray(m: Fields) {
    FieldOr(m, "bi_purpose_type_id", JInt(1)).JMap? ||
    FieldOr(m, "city_id", JInt(110)).JMap? ||
    FieldOr(m, "area_place_id", JNull).JMap? ||
    FieldOr(m, "sub_area_place_id", JNull).JMap?
  }

  /** One of the ids used as an array offset in a lookup table is an array. */
  predicate HasArrayOffset(m: Fields) {
    PlaceOffsetArray(m) || FieldOr(m, "bi_furnishing_status_id", JInt(2)).JMap?
  }

  /** A default title or description is built from an array unit code. */
  predicate TextFault(m: Fields) {
    FieldOr(m, "unit_code", JNull).JMap? && ("title" !in m || "description" !in m)
  }

  /** The EGP division is handed something that is not an integer string. */
  predicate PriceFault(m: Fields) {
    CurrencyIn(m) == JStr("EGP") && Truthy(PriceIn(m)) &&
    (PriceIn(m).JMap? || (PriceIn(m).JStr? && !Classify(PriceIn(m).s).IntegerString?))
  }

  /** The first field, in the order the array literal lists them, whose
      evaluation raises. */
  function FirstFault(m: Fields): (f: Option<MapOutcome>)
    ensures f.None? <==> !HasArrayOffset(m) && !TextFault(m) && !PriceFault(m)
    ensures f.Some? ==> !f.value.Mapped?
    ensures PlaceOffsetArray(m) ==> f.Some? && f.value.Crashed?
    ensures f.Some? && f.value.Failed? ==>
      TextFault(m) || (PriceFault(m) && PriceIn(m).JStr? && Classify(PriceIn(m).s).LeadingInteger?)
    ensures f.Some? && f.value.Crashed? ==> HasArrayOffset(m) || PriceFault(m)
  {
    if MapPropertyType(FieldOr(m, "bi_purpose_type_id", JInt(1))).TypeError? then Some(Crashed("property_type"))
    else if MapCity(FieldOr(m, "city_id", JInt(110))).TypeError? then Some(Crashed("city"))
    else if MapPlace(FieldOr(m, "area_place_id", JNull), Localities).TypeError? then Some(Crashed("locality"))
    else if MapPlace(FieldOr(m, "sub_area_place_id", JNull), SubLocalities).TypeError? then Some(Crashed("sub_locality"))
    else if TextOrDefault(m, "title", "Property ").Warning? then Some(Failed("property_title"))
    else if TextOrDefault(m, "description", "Property description for ").Warning? then Some(Failed("property_description"))
    else if ConvertPrice(PriceIn(m), CurrencyIn(m)).Warning? then Some(Failed("price"))
    else if ConvertPrice(PriceIn(m), CurrencyIn(m)).TypeError? then Some(Crashed("price"))
    else if MapFurnished(FieldOr(m, "bi_furnishing_status_id", JInt(2))).TypeError? then Some(Crashed("furnished"))
    else None
  }

  // ---------------------------------------------------------------------------
  // The mapping

  /** The listing assembled field by field from the helpers above. A field
      whose evaluation raises gets a placeholder here; MapProperty builds the
      listing only when no field raises. `uniq` stands for the `uniqid()`
      value of this call, `now` for the clock and `parseDate` for the date
      library. */
  function BuildRecord(m: Fields, uniq: string, now: string, parseDate: string -> Option<string>): Record {
    var offPlan := OffPlan(m);
    var agent := Agent(m);
    Record(
      refNo := FieldOr(m, "unit_code", JStr("UNIT-" + uniq)),
      permitNumber := FieldOr(m, "unit_code", JNull),
      status := MapStatus(FieldOr(m, "availability", JNull)),
      purpose := MapPurpose(FieldOr(m, "bi_purpose_id", JNull), FieldOr(m, "bi_purpose_type_id", JNull)),
      propertyType := MapPropertyType(FieldOr(m, "bi_purpose_type_id", JInt(1))).Or("Apartment"),
      size := FieldOr(m, "area", JInt(1000)),
      sizeUnit := "SQFT",
      plotArea := FieldOr(m, "plot_area", JNull),
      bedrooms := MapRooms(FieldOr(m, "bi_bedroom_id", JInt(1))),
      bathrooms := MapRooms(FieldOr(m, "bi_bathroom_id", JInt(1))),
      city := MapCity(FieldOr(m, "city_id", JInt(110))).Or("Dubai"),
      locality := MapPlace(FieldOr(m, "area_place_id", JNull), Localities).Or(None).GetOr("Downtown Dubai"),
      subLocality := MapPlace(FieldOr(m, "sub_area_place_id", JNull), SubLocalities).Or(None),
      towerName := TowerName(m),
      title := TextOrDefault(m, "title", "Property ").Or(JNull),
      titleAr := JNull,
      description := TextOrDefault(m, "description", "Property description for ").Or(JNull),
      descriptionAr := JNull,
      price := ConvertPrice(PriceIn(m), CurrencyIn(m)).Or(JNull),
      rentFrequency := MapRentFrequency(FieldOr(m, "bi_purpose_id", JNull), Field(m, "number_of_installments")),
      furnished := MapFurnished(FieldOr(m, "bi_furnishing_status_id", JInt(2))).Or("No"),
      offPlan := offPlan.offPlan,
      saleType := offPlan.saleType,
      dldWaiver := offPlan.dldWaiver,
      originalPrice := offPlan.originalPrice,
      amountPaid := offPlan.amountPaid,
      features := Sanitize(FieldOr(m, "facilities_ids", JMap([]))),
      images := Sanitize(MediaInput(m)),
      videos := Sanitize(VideoInput(m)),
      portals := [JStr("Bayut"), JStr("dubizzle")],
      agent := agent.name,
      agentPhone := agent.phone,
      agentEmail := agent.email,
      lastUpdated := FormatDateTime(Field(m, "updated_at"), now, parseDate))
  }

  /** mapCrmPropertyToLocalFormat: the listing, or the first fault in field
      order. */
  function MapProperty(m: Fields, uniq: string, now: string, parseDate: string -> Option<string>): (out: MapOutcome)
    ensures out.Mapped? <==> !HasArrayOffset(m) && !TextFault(m) && !PriceFault(m)
    ensures out.Crashed? ==> HasArrayOffset(m) || PriceFault(m)
    ensures out.Failed? ==> TextFault(m) || PriceFault(m)
    ensures PlaceOffsetArray(m) ==> out.Crashed?
    ensures !HasArrayOffset(m) && !TextFault(m) && CurrencyIn(m) != JStr("EGP") ==> out.Mapped?
  {
    match FirstFault(m)
    case Some(fault) => fault
    case None => Mapped(BuildRecord(m, uniq, now, parseDate))
  }

  /** The call `mapCrmPropertyToLocalFormat($crmProperty, $index)`: the
      record's key is converted to the `int` parameter before the body runs,
      so a non-numeric key is a TypeError and a leading-numeric one a warning. */
  function MapEntry(key: string, m: Fields, uniq: string, now: string, parseDate: string -> Option<string>): (out: MapOutcome)
    ensures Classify(key).IntegerString? ==> out == MapProperty(m, uniq, now, parseDate)
    ensures Classify(key).LeadingInteger? ==> out == Failed("index")
    ensures Classify(key).NotNumeric? ==> out == Crashed("index")
  {
    match IntArgument(key)
    case TypeError => Crashed("index")
    case Warning => Failed("index")
    case Value(_) => MapProperty(m, uniq, now, parseDate)
  }

  /** A record taken from a list, keyed by its position, maps as its fields
      say; one keyed by a name stops the run before any field is read. */
  lemma MapEntryKeys(i: int, name: string, m: Fields, uniq: string, now: string, parseDate: string -> Option<string>)
    requires IsName(name)
    ensures MapEntry(IntToString(i), m, uniq, now, parseDate) == MapProperty(m, uniq, now, parseDate)
    ensures MapEntry(name, m, uniq, now, parseDate) == Crashed("index")
  {
    IntArgumentOfIndex(i);
    IntArgumentOfName(name);
  }

  /** What every mapped listing carries whatever the CRM sent: the locality
      falls back to "Downtown Dubai", the only locality the table knows, so it
      is always that; the sub-locality is null or "Burj Khalifa Area"; the
      size unit, the Arabic texts and the portals are constants; the
      reference number is the unit code or a generated "UNIT-" one; the room
      counts are truthy. */
  lemma MappedConstants(m: Fields, uniq: string, now: string, parseDate: string -> Option<string>)
    requires MapProperty(m, uniq, now, parseDate).Mapped?
    ensures MapProperty(m, uniq, now, parseDate).rec.locality == "Downtown Dubai"
    ensures MapProperty(m, uniq, now, parseDate).rec.subLocality in {None, Some("Burj Khalifa Area")}
    ensures MapProperty(m, uniq, now, parseDate).rec.sizeUnit == "SQFT"
    ensures MapProperty(m, uniq, now, parseDate).rec.titleAr == JNull
    ensures MapProperty(m, uniq, now, parseDate).rec.descriptionAr == JNull
    ensures MapProperty(m, uniq, now, parseDate).rec.portals == [JStr("Bayut"), JStr("dubizzle")]
    ensures MapProperty(m, uniq, now, parseDate).rec.refNo ==
      (if "unit_code" in m then m["unit_code"] else JStr("UNIT-" + uniq))
    ensures MapProperty(m, uniq, now, parseDate).rec.permitNumber == FieldOr(m, "unit_code", JNull)
    ensures Truthy(MapProperty(m, uniq, now, parseDate).rec.bedrooms)
    ensures Truthy(MapProperty(m, uniq, now, parseDate).rec.bathrooms)
    ensures MapProperty(m, uniq, now, parseDate).rec.rentFrequency.Some? ==>
      MapProperty(m, uniq, now, parseDate).rec.purpose == "Rent"
  {
    var rec := BuildRecord(m, uniq, now, parseDate);
    assert MapProperty(m, uniq, now, parseDate).rec == rec;
    PlaceTables(FieldOr(m, "area_place_id", JNull));
    PlaceTables(FieldOr(m, "sub_area_place_id", JNull));
  }

  /** A mapped listing holds what the field mappers give for its CRM values:
      status, purpose, type, city, furnishing, size, price, rent frequency and
      the off-plan terms. */
  lemma MappedFields(m: Fields, uniq: string, now: string, parseDate: string -> Option<string>)
    requires MapProperty(m, uniq, now, parseDate).Mapped?
    ensures MapProperty(m, uniq, now, parseDate).rec.status == MapStatus(FieldOr(m, "availability", JNull))
    ensures MapProperty(m, uniq, now, parseDate).rec.purpose ==
      MapPurpose(FieldOr(m, "bi_purpose_id", JNull), FieldOr(m, "bi_purpose_type_id", JNull))
    ensures Value(MapProperty(m, uniq, now, parseDate).rec.propertyType) ==
      MapPropertyType(FieldOr(m, "bi_purpose_type_id", JInt(1)))
    ensures Value(MapProperty(m, uniq, now, parseDate).rec.city) == MapCity(FieldOr(m, "city_id", JInt(110)))
    ensures Value(MapProperty(m, uniq, now, parseDate).rec.furnished) ==
      MapFurnished(FieldOr(m, "bi_furnishing_status_id", JInt(2)))
    ensures MapProperty(m, uniq, now, parseDate).rec.size == FieldOr(m, "area", JInt(1000))
    ensures Value(MapProperty(m, uniq, now, parseDate).rec.price) == ConvertPrice(PriceIn(m), CurrencyIn(m))
    ensures MapProperty(m, uniq, now, parseDate).rec.rentFrequency ==
      MapRentFrequency(FieldOr(m, "bi_purpose_id", JNull), Field(m, "number_of_installments"))
    ensures MapProperty(m, uniq, now, parseDate).rec.offPlan == OffPlan(m).offPlan
  {
    assert MapProperty(m, uniq, now, parseDate).rec == BuildRecord(m, uniq, now, parseDate);
  }

  /** A CRM record for an available apartment for sale, 1200 square feet at
      85000 USD, with no city, place or furnishing ids, maps to a live sale
      listing of that size and price. */
  lemma SampleMapped(m: Fields, uniq: string, now: string, parseDate: string -> Option<string>)
    requires Field(m, "availability") == Some(JStr("Available"))
    requires Field(m, "bi_purpose_id") == Some(JInt(1)) && Field(m, "bi_purpose_type_id") == Some(JInt(1))
    requires Field(m, "area") == Some(JInt(1200))
    requires Field(m, "price") == Some(JInt(85000)) && Field(m, "currency_code") == Some(JStr("USD"))
    requires "city_id" !in m && "area_place_id" !in m && "sub_area_place_id" !in m
    requires "bi_furnishing_status_id" !in m && "unit_code" !in m
    ensures MapProperty(m, uniq, now, parseDate).Mapped?
    ensures MapProperty(m, uniq, now, parseDate).rec.status == "live"
    ensures MapProperty(m, uniq, now, parseDate).rec.purpose == "Sale"
    ensures MapProperty(m, uniq, now, parseDate).rec.propertyType == "Apartment"
    ensures MapProperty(m, uniq, now, parseDate).rec.city == "Dubai"
    ensures MapProperty(m, uniq, now, parseDate).rec.size == JInt(1200)
    ensures MapProperty(m, uniq, now, parseDate).rec.price == JInt(85000)
    ensures MapProperty(m, uniq, now, parseDate).rec.rentFrequency == None
  {
    assert !HasArrayOffset(m) && !TextFault(m);
    assert CurrencyIn(m) == JStr("USD") && PriceIn(m) == JInt(85000);
    MappedFields(m, uniq, now, parseDate);
  }

  /** Once the record has a unit code, the outcome does not depend on the
      `uniqid()` value. */
  lemma MapPropertyUniqIrrelevant(m: Fields, u1: string, u2: string, now: string, parseDate: string -> Option<string>)
    requires "unit_code" in m
    ensures MapProperty(m, u1, now, parseDate) == MapProperty(m, u2, now, parseDate)
  {
  }
}
