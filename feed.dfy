/** The portal feed: every stored listing that names Bayut or dubizzle among
    its portals becomes one `Property` node of the XML document, with its
    elements in a fixed order; the DOM and its serialisation are not part of
    this model, only which elements a node gets and what text each carries. */
module Feed {
  import opened Php

  /** A listing as the controller reads it back from the database: text
      columns are strings or null, `off_plan` is cast to a boolean, and the
      four list columns hold what the `array` cast decoded. The agent columns
      are never emitted and are not modelled. */
  datatype Row = Row(
    refNo: Option<string>,
    permitNumber: Option<string>,
    status: Option<string>,
    purpose: Option<string>,
    propertyType: Option<string>,
    size: Option<string>,
    sizeUnit: Option<string>,
    plotArea: Option<string>,
    bedrooms: Option<string>,
    bathrooms: Option<string>,
    city: Option<string>,
    locality: Option<string>,
    subLocality: Option<string>,
    towerName: Option<string>,
    title: Option<string>,
    titleAr: Option<string>,
    description: Option<string>,
    descriptionAr: Option<string>,
    price: Option<string>,
    rentFrequency: Option<string>,
    furnished: Option<string>,
    offPlan: bool,
    saleType: Option<string>,
    dldWaiver: Option<string>,
    originalPrice: Option<string>,
    amountPaid: Option<string>,
    features: Json,
    images: Json,
    videos: Json,
    portals: Json,
    lastUpdated: Option<string>)

  /** The child elements of a `Property` node. */
  datatype Tag =
    | PropertyRefNo | PermitNumber | PropertyStatus | PropertyPurpose | PropertyType
    | PropertySize | PropertySizeUnit | PlotArea | Bedrooms | Bathrooms
    | City | Locality | SubLocality | TowerName | Locationtext
    | PropertyTitle | PropertyTitleAr | PropertyDescription | PropertyDescriptionAr
    | Price | RentFrequency | Furnished | OffPlan
    | SaleType | DldWaiver | OriginalPrice | AmountPaid
    | Features | Images | Videos | Portals | LastUpdated

  /** The element name written for each tag. */
  function TagName(t: Tag): string {
    match t
    case PropertyRefNo => "Property_Ref_No"
    case PermitNumber => "Permit_Number"
    case PropertyStatus => "Property_Status"
    case PropertyPurpose => "Property_purpose"
    case PropertyType => "Property_Type"
    case PropertySize => "Property_Size"
    case PropertySizeUnit => "Property_Size_Unit"
    case PlotArea => "plotArea"
    case Bedrooms => "Bedrooms"
    case Bathrooms => "Bathrooms"
    case City => "City"
    case Locality => "Locality"
    case SubLocality => "Sub_Locality"
    case TowerName => "Tower_Name"
    case Locationtext => "Locationtext"
    case PropertyTitle => "Property_Title"
    case PropertyTitleAr => "Property_Title_AR"
    case PropertyDescription => "Property_Description"
    case PropertyDescriptionAr => "Property_Description_AR"
    case Price => "Price"
    case RentFrequency => "Rent_Frequency"
    case Furnished => "Furnished"
    case OffPlan => "Off_plan"
    case SaleType => "offplanDetails_saleType"
    case DldWaiver => "offplanDetails_dldWaiver"
    case OriginalPrice => "offplanDetails_originalPrice"
    case AmountPaid => "offplanDetails_amountPaid"
    case Features => "Features"
    case Images => "Images"
    case Videos => "Videos"
    case Portals => "Portals"
    case LastUpdated => "Last_Updated"
  }

  /** The name of each child of a list element. */
  function ItemName(t: Tag): string {
    match t
    case Features => "Feature"
    case Images => "Image"
    case Videos => "Video"
    case _ => "Portal"
  }

  /** Each list element is named for its children: the child name plus "s". */
  lemma ListItemNames(t: Tag)
    requires t in {Features, Images, Videos, Portals}
    ensures TagName(t) == ItemName(t) + "s"
  {
  }

  /** A text element (its CDATA content), or a list element with one text
      child per entry. */
  datatype Element = Field(tag: Tag, text: string) | Group(tag: Tag, items: seq<string>)

  /** What a node's list elements hold: the trimmed entries of each list. */
  datatype Lists = Lists(features: seq<string>, images: seq<string>, videos: seq<string>, portals: seq<string>)

  // ---------------------------------------------------------------------------
  // The lists

  /** The list a column yields: an array gives its values; a string left by
      the cast is decoded once more, where `null` or undecodable text gives the
      empty list; any other value gives the empty list. A string that decodes
      to a scalar gives no list at all: the loop over it, or the portal test,
      fails. */
  function ListOf(v: Json, decode: string -> Option<Json>): (items: Option<seq<Json>>)
    ensures v.JMap? ==> items == Some(Values(v.entries))
    ensures !v.JMap? && !v.JStr? ==> items == Some([])
    ensures v.JStr? && (decode(v.s).None? || decode(v.s) == Some(JNull)) ==> items == Some([])
    ensures v.JStr? && decode(v.s).Some? && decode(v.s).value.JMap? ==>
      items == Some(Values(decode(v.s).value.entries))
    ensures items.None? <==>
      v.JStr? && decode(v.s).Some? && decode(v.s).value != JNull && !decode(v.s).value.JMap?
  {
    match v
    case JMap(es) => Some(Values(es))
    case JStr(s) =>
      (match decode(s)
       case None => Some([])
       case Some(JNull) => Some([])
       case Some(JMap(es)) => Some(Values(es))
       case Some(_) => None)
    case _ => Some([])
  }

  /** `trim()` of one list entry: scalars are converted to text first, an
      array is a TypeError. */
  function ItemText(v: Json): (t: Option<string>)
    ensures t.None? <==> v.JMap?
    ensures t.Some? ==> Trimmed(t.value)
    ensures v.JStr? ==> t == Some(Trim(v.s))
  {
    match StringValue(v)
    case Value(s) => Some(Trim(s))
    case _ => None
  }

  /** Neither end of `t` is a character `trim()` removes. */
  predicate Trimmed(t: string) {
    |t| > 0 ==> !IsTrimChar(t[0]) && !IsTrimChar(t[|t| - 1])
  }

  /** The texts of a list element's children; none when an entry is an
      array. */
  function ItemTexts(items: seq<Json>): Option<seq<string>>
    decreases |items|
  {
    if |items| == 0 then Some([])
    else
      var n := |items| - 1;
      var front := ItemTexts(items[..n]);
      var last := ItemText(items[n]);
      if front.None? || last.None? then None else Some(front.value + [last.value])
  }

  /** One child per entry, in list order, each the trimmed text of its entry;
      the list fails exactly when some entry is an array. */
  lemma {:induction false} ItemTextsSpec(items: seq<Json>)
    ensures ItemTexts(items).Some? <==> forall k :: 0 <= k < |items| ==> !items[k].JMap?
    ensures ItemTexts(items).Some? ==> |ItemTexts(items).value| == |items|
    ensures ItemTexts(items).Some? ==>
      forall k :: 0 <= k < |items| ==> Some(ItemTexts(items).value[k]) == ItemText(items[k])
    decreases |items|
  {
    forall k | 0 <= k < |items| && items[k].JMap?
      ensures ItemTexts(items).None?
    {
      ItemTextsFails(items, k);
    }
    if |items| > 0 {
      var n := |items| - 1;
      var front := items[..n];
      ItemTextsSpec(front);
      if forall k :: 0 <= k < |items| ==> !items[k].JMap? {
        assert forall k :: 0 <= k < n ==> !front[k].JMap?;
      }
      if ItemTexts(items).Some? {
        var ts := ItemTexts(items).value;
        forall k | 0 <= k < n
          ensures Some(ts[k]) == ItemText(items[k])
        {
          assert ts[k] == ItemTexts(front).value[k];
          assert front[k] == items[k];
        }
      }
    }
  }

  /** The loop adding one trimmed child per entry. */
  method TrimItems(items: seq<Json>) returns (ts: Option<seq<string>>)
    ensures ts == ItemTexts(items)
  {
    var texts: seq<string> := [];
    var i := 0;
    while i < |items|
      invariant 0 <= i <= |items|
      invariant ItemTexts(items[..i]) == Some(texts)
    {
      assert items[..i + 1][..i] == items[..i];
      var t := ItemText(items[i]);
      if t.None? {
        ItemTextsFails(items, i);
        return None;
      }
      texts := texts + [t.value];
      i := i + 1;
    }
    assert items[..i] == items;
    return Some(texts);
  }

  lemma {:induction false} ItemTextsFails(items: seq<Json>, i: nat)
    requires i < |items| && items[i].JMap?
    ensures ItemTexts(items).None?
    decreases |items|
  {
    var n := |items| - 1;
    if i < n {
      assert items[..n][i] == items[i];
      ItemTextsFails(items[..n], i);
    }
  }

  // ---------------------------------------------------------------------------
  // One node

  /** `in_array($name, $portals)`: an entry loosely equal to the name. */
  predicate Names(portals: seq<Json>, name: string)
    requires IsName(name)
  {
    exists k :: 0 <= k < |portals| && LooseEqText(portals[k], name)
  }

  /** The portal filter: the listing is published to Bayut or dubizzle. */
  predicate Listed(portals: seq<Json>) {
    Names(portals, "Bayut") || Names(portals, "dubizzle")
  }

  /** A nullable column written as text: null gives the empty string. */
  function Text(v: Option<string>): string {
    v.GetOr("")
  }

  /** The fixed leading elements, from the reference to the Arabic
      description, in document order. */
  const BasicTags: seq<Tag> := [
    PropertyRefNo, PermitNumber, PropertyStatus, PropertyPurpose, PropertyType,
    PropertySize, PropertySizeUnit, PlotArea, Bedrooms, Bathrooms,
    City, Locality, SubLocality, TowerName, Locationtext,
    PropertyTitle, PropertyTitleAr, PropertyDescription, PropertyDescriptionAr]

  /** The text of each leading element. */
  function BasicText(row: Row, t: Tag): string {
    match t
    case PropertyRefNo => Text(row.refNo)
    case PermitNumber => Text(row.permitNumber)
    case PropertyStatus => Text(row.status)
    case PropertyPurpose => Text(row.purpose)
    case PropertyType => Text(row.propertyType)
    case PropertySize => Text(row.size)
    case PropertySizeUnit => Text(row.sizeUnit)
    case PlotArea => Text(row.plotArea)
    case Bedrooms => if row.propertyType == Some("Studio") then "0" else Text(row.bedrooms)
    case Bathrooms => Text(row.bathrooms)
    case City => Text(row.city)
    case Locality => Text(row.locality)
    case SubLocality => Text(row.subLocality)
    case TowerName => Text(row.towerName)
    case Locationtext => Text(row.city) + " - " + Text(row.locality)
    case PropertyTitle => Text(row.title)
    case PropertyTitleAr => Text(if row.titleAr.Some? then row.titleAr else row.title)
    case PropertyDescription => Text(row.description)
    case PropertyDescriptionAr => Text(if row.descriptionAr.Some? then row.descriptionAr else row.description)
    case _ => ""
  }

  function Basics(row: Row): seq<Element> {
    seq(|BasicTags|, k requires 0 <= k < |BasicTags| => Field(BasicTags[k], BasicText(row, BasicTags[k])))
  }

  /** The price, the rent frequency for rentals only, and the furnishing. */
  function Pricing(row: Row): seq<Element> {
    [Field(Price, Text(row.price))]
    + (if row.purpose == Some("Rent") then [Field(RentFrequency, row.rentFrequency.GetOr("Yearly"))] else [])
    + [Field(Furnished, Text(row.furnished))]
  }

  /** The off-plan flag and, for an off-plan listing, the sale type and the
      details its stored sale type calls for. */
  function OffPlanDetails(row: Row): seq<Element> {
    [Field(OffPlan, if row.offPlan then "Yes" else "No")]
    + if !row.offPlan then []
      else
        [Field(SaleType, row.saleType.GetOr("New"))]
        + if row.saleType == Some("New") then [Field(DldWaiver, row.dldWaiver.GetOr("0"))]
          else if row.saleType == Some("Resale") then
            [Field(OriginalPrice, row.originalPrice.GetOr("0")), Field(AmountPaid, row.amountPaid.GetOr("0"))]
          else []
  }

  /** The four list elements and the update time. */
  function Closing(row: Row, lists: Lists): seq<Element> {
    [Group(Features, lists.features), Group(Images, lists.images), Group(Videos, lists.videos),
     Group(Portals, lists.portals), Field(LastUpdated, Text(row.lastUpdated))]
  }

  /** The children of one `Property` node, in document order. */
  function PropertyElements(row: Row, lists: Lists): seq<Element> {
    Basics(row) + Pricing(row) + OffPlanDetails(row) + Closing(row, lists)
  }

  /** What the loop makes of one listing. */
  datatype Node = Skip | Emit(elements: seq<Element>) | Fail

  /** One turn of the feed loop: the portal test first, then the node, whose
      list elements may still fail. */
  function Render(row: Row, decode: string -> Option<Json>): Node {
    match ListOf(row.portals, decode)
    case None => Fail
    case Some(portals) =>
      if !Listed(portals) then Skip
      else
        var f := ListOf(row.features, decode);
        var i := ListOf(row.images, decode);
        var v := ListOf(row.videos, decode);
        if f.None? || i.None? || v.None? then Fail
        else
          var ft := ItemTexts(f.value);
          var it := ItemTexts(i.value);
          var vt := ItemTexts(v.value);
          var pt := ItemTexts(portals);
          if ft.None? || it.None? || vt.None? || pt.None? then Fail
          else Emit(PropertyElements(row, Lists(ft.value, it.value, vt.value, pt.value)))
  }

  // ---------------------------------------------------------------------------
  // What a node says

  /** The position of each element in the document order of a node. */
  function Rank(t: Tag): nat {
    match t
    case PropertyRefNo => 0
    case PermitNumber => 1
    case PropertyStatus => 2
    case PropertyPurpose => 3
    case PropertyType => 4
    case PropertySize => 5
    case PropertySizeUnit => 6
    case PlotArea => 7
    case Bedrooms => 8
    case Bathrooms => 9
    case City => 10
    case Locality => 11
    case SubLocality => 12
    case TowerName => 13
    case Locationtext => 14
    case PropertyTitle => 15
    case PropertyTitleAr => 16
    case PropertyDescription => 17
    case PropertyDescriptionAr => 18
    case Price => 19
    case RentFrequency => 20
    case Furnished => 21
    case OffPlan => 22
    case SaleType => 23
    case DldWaiver => 24
    case OriginalPrice => 25
    case AmountPaid => 26
    case Features => 27
    case Images => 28
    case Videos => 29
    case Portals => 30
    case LastUpdated => 31
  }

  /** Elements strictly in document order, hence each at most once. */
  predicate Ordered(es: seq<Element>) {
    forall i, j :: 0 <= i < j < |es| ==> Rank(es[i].tag) < Rank(es[j].tag)
  }

  /** Every element of `es` ranks within `lo..hi`. */
  predicate Within(es: seq<Element>, lo: nat, hi: nat) {
    forall k :: 0 <= k < |es| ==> lo <= Rank(es[k].tag) <= hi
  }

  lemma {:induction false} OrderedAppend(a: seq<Element>, b: seq<Element>, lo: nat, mid: nat, hi: nat)
    requires lo <= mid <= hi
    requires Ordered(a) && Ordered(b) && Within(a, lo, mid) && Within(b, mid + 1, hi)
    ensures Ordered(a + b) && Within(a + b, lo, hi)
  {
    forall k | 0 <= k < |a + b|
      ensures lo <= Rank((a + b)[k].tag) <= hi
    {
      if k < |a| {
        assert (a + b)[k] == a[k];
      } else {
        assert (a + b)[k] == b[k - |a|];
      }
    }
    forall i, j | 0 <= i < j < |a + b|
      ensures Rank((a + b)[i].tag) < Rank((a + b)[j].tag)
    {
      if j < |a| {
        assert (a + b)[i] == a[i] && (a + b)[j] == a[j];
      } else if i < |a| {
        assert (a + b)[i] == a[i] && (a + b)[j] == b[j - |a|];
      } else {
        assert (a + b)[i] == b[i - |a|] && (a + b)[j] == b[j - |a|];
      }
    }
  }

  /** Elements whose ranks count up from `lo` one by one. */
  lemma Counting(es: seq<Element>, lo: nat)
    requires |es| > 0
    requires forall k :: 0 <= k < |es| ==> Rank(es[k].tag) == lo + k
    ensures Ordered(es) && Within(es, lo, lo + |es| - 1)
  {
  }

  lemma BasicsOrdered(row: Row)
    ensures Ordered(Basics(row)) && Within(Basics(row), 0, 18)
  {
    assert forall k :: 0 <= k < |BasicTags| ==> Rank(BasicTags[k]) == k;
  }

  lemma PricingOrdered(row: Row)
    ensures Ordered(Pricing(row)) && Within(Pricing(row), 19, 21)
  {
    var p := Pricing(row);
    if row.purpose == Some("Rent") {
      assert Rank(p[0].tag) == 19 && Rank(p[1].tag) == 20 && Rank(p[2].tag) == 21;
      Counting(p, 19);
    } else {
      assert p == [Field(Price, Text(row.price)), Field(Furnished, Text(row.furnished))];
    }
  }

  lemma OffPlanOrdered(row: Row)
    ensures Ordered(OffPlanDetails(row)) && Within(OffPlanDetails(row), 22, 26)
  {
    var head := [Field(OffPlan, if row.offPlan then "Yes" else "No")];
    Counting(head, 22);
    if row.offPlan {
      var sale := [Field(SaleType, row.saleType.GetOr("New"))];
      Counting(sale, 23);
      var details := OffPlanDetails(row)[2..];
      assert OffPlanDetails(row) == head + (sale + details);
      if row.saleType == Some("New") {
        Counting(details, 24);
      } else if row.saleType == Some("Resale") {
        Counting(details, 25);
      }
      OrderedAppend(sale, details, 23, 23, 26);
      OrderedAppend(head, sale + details, 22, 22, 26);
    } else {
      assert OffPlanDetails(row) == head;
    }
  }

  lemma ClosingOrdered(row: Row, lists: Lists)
    ensures Ordered(Closing(row, lists)) && Within(Closing(row, lists), 27, 31)
  {
    var c := Closing(row, lists);
    forall k | 0 <= k < |c|
      ensures Rank(c[k].tag) == 27 + k
    {
      if k == 0 {} else if k == 1 {} else if k == 2 {} else if k == 3 {} else {}
    }
    Counting(c, 27);
  }

  /** A node's elements follow the feed's fixed order, so no element appears
      twice. */
  lemma ElementsOrdered(row: Row, lists: Lists)
    ensures Ordered(PropertyElements(row, lists))
  {
    BasicsOrdered(row);
    PricingOrdered(row);
    OffPlanOrdered(row);
    ClosingOrdered(row, lists);
    OrderedAppend(Basics(row), Pricing(row), 0, 18, 21);
    OrderedAppend(Basics(row) + Pricing(row), OffPlanDetails(row), 0, 21, 26);
    OrderedAppend(Basics(row) + Pricing(row) + OffPlanDetails(row), Closing(row, lists), 0, 26, 31);
  }

  /** The leading element at position `k` carries its text. */
  lemma BasicElement(row: Row, lists: Lists, k: nat)
    requires k < |BasicTags|
    ensures Field(BasicTags[k], BasicText(row, BasicTags[k])) in PropertyElements(row, lists)
  {
    var es := PropertyElements(row, lists);
    assert es[k] == Basics(row)[k];
  }

  /** Bedrooms reads "0" for a studio and the stored count otherwise. */
  lemma BedroomsElement(row: Row, lists: Lists)
    ensures Field(Bedrooms, if row.propertyType == Some("Studio") then "0" else Text(row.bedrooms))
      in PropertyElements(row, lists)
  {
    assert BasicTags[8] == Bedrooms;
    BasicElement(row, lists, 8);
  }

  /** The Arabic title falls back to the English one. */
  lemma TitleFallback(row: Row, lists: Lists)
    ensures Field(PropertyTitleAr, Text(if row.titleAr.Some? then row.titleAr else row.title)) in PropertyElements(row, lists)
  {
    assert BasicTags[16] == PropertyTitleAr;
    BasicElement(row, lists, 16);
  }

  /** The Arabic description falls back to the English one. */
  lemma DescriptionFallback(row: Row, lists: Lists)
    ensures Field(PropertyDescriptionAr, Text(if row.descriptionAr.Some? then row.descriptionAr else row.description))
      in PropertyElements(row, lists)
  {
    assert BasicTags[18] == PropertyDescriptionAr;
    BasicElement(row, lists, 18);
  }

  /** The location text joins the city and the locality. */
  lemma LocationText(row: Row, lists: Lists)
    ensures Field(Locationtext, Text(row.city) + " - " + Text(row.locality)) in PropertyElements(row, lists)
  {
    assert BasicTags[14] == Locationtext;
    BasicElement(row, lists, 14);
  }

  predicate HasTag(es: seq<Element>, t: Tag) {
    exists k :: 0 <= k < |es| && es[k].tag == t
  }

  lemma {:induction false} HasTagAppend(a: seq<Element>, b: seq<Element>, t: Tag)
    ensures HasTag(a + b, t) <==> HasTag(a, t) || HasTag(b, t)
  {
    if HasTag(a + b, t) {
      var k :| 0 <= k < |a + b| && (a + b)[k].tag == t;
      if k < |a| {
        assert a[k] == (a + b)[k];
      } else {
        assert b[k - |a|] == (a + b)[k];
      }
    }
    if HasTag(a, t) {
      var k :| 0 <= k < |a| && a[k].tag == t;
      assert (a + b)[k] == a[k];
    }
    if HasTag(b, t) {
      var k :| 0 <= k < |b| && b[k].tag == t;
      assert (a + b)[|a| + k] == b[k];
    }
  }

  /** A tag is present in a node exactly when the block its rank belongs to
      has it. */
  lemma BlockTag(row: Row, lists: Lists, t: Tag)
    ensures HasTag(PropertyElements(row, lists), t) <==>
      if Rank(t) <= 18 then HasTag(Basics(row), t)
      else if Rank(t) <= 21 then HasTag(Pricing(row), t)
      else if Rank(t) <= 26 then HasTag(OffPlanDetails(row), t)
      else HasTag(Closing(row, lists), t)
  {
    BasicsOrdered(row);
    PricingOrdered(row);
    OffPlanOrdered(row);
    ClosingOrdered(row, lists);
    HasTagAppend(Basics(row), Pricing(row), t);
    HasTagAppend(Basics(row) + Pricing(row), OffPlanDetails(row), t);
    HasTagAppend(Basics(row) + Pricing(row) + OffPlanDetails(row), Closing(row, lists), t);
  }

  /** Rent_Frequency appears exactly for rentals, defaulting to Yearly. */
  lemma RentFrequencyElement(row: Row, lists: Lists)
    ensures HasTag(PropertyElements(row, lists), RentFrequency) <==> row.purpose == Some("Rent")
    ensures row.purpose == Some("Rent") ==>
      Field(RentFrequency, row.rentFrequency.GetOr("Yearly")) in PropertyElements(row, lists)
  {
    BlockTag(row, lists, RentFrequency);
    var es := PropertyElements(row, lists);
    if row.purpose == Some("Rent") {
      assert es[|Basics(row)| + 1] == Field(RentFrequency, row.rentFrequency.GetOr("Yearly"));
    }
  }

  /** Off_plan reads Yes or No; the sale type appears for off-plan listings
      only, defaulting to New. */
  lemma OffPlanFlag(row: Row, lists: Lists)
    ensures Field(OffPlan, if row.offPlan then "Yes" else "No") in PropertyElements(row, lists)
    ensures HasTag(PropertyElements(row, lists), SaleType) <==> row.offPlan
    ensures row.offPlan ==> Field(SaleType, row.saleType.GetOr("New")) in PropertyElements(row, lists)
  {
    OffPlanBlock(row, lists, SaleType);
    OffPlanTags(row);
    var o := OffPlanDetails(row);
    OffPlanIn(row, lists, o[0]);
    if row.offPlan {
      OffPlanIn(row, lists, o[1]);
    }
  }

  /** The DLD waiver appears only when an off-plan listing's stored sale type
      is New; the original price and the amount paid only when it is Resale;
      neither when it is null. */
  lemma SaleDetails(row: Row, lists: Lists)
    ensures HasTag(PropertyElements(row, lists), DldWaiver) <==> row.offPlan && row.saleType == Some("New")
    ensures HasTag(PropertyElements(row, lists), OriginalPrice) <==> row.offPlan && row.saleType == Some("Resale")
    ensures HasTag(PropertyElements(row, lists), AmountPaid) <==> row.offPlan && row.saleType == Some("Resale")
  {
    OffPlanBlock(row, lists, DldWaiver);
    OffPlanBlock(row, lists, OriginalPrice);
    OffPlanBlock(row, lists, AmountPaid);
    OffPlanTags(row);
  }

  /** Which elements the off-plan block holds. */
  lemma OffPlanTags(row: Row)
    ensures HasTag(OffPlanDetails(row), SaleType) <==> row.offPlan
    ensures HasTag(OffPlanDetails(row), DldWaiver) <==> row.offPlan && row.saleType == Some("New")
    ensures HasTag(OffPlanDetails(row), OriginalPrice) <==> row.offPlan && row.saleType == Some("Resale")
    ensures HasTag(OffPlanDetails(row), AmountPaid) <==> row.offPlan && row.saleType == Some("Resale")
  {
    var o := OffPlanDetails(row);
    var flag := Field(OffPlan, if row.offPlan then "Yes" else "No");
    var sale := Field(SaleType, row.saleType.GetOr("New"));
    if !row.offPlan {
      assert o == [flag];
      assert forall k | 0 <= k < |o| :: o[k].tag == OffPlan;
    } else if row.saleType == Some("New") {
      assert o == [flag, sale, Field(DldWaiver, row.dldWaiver.GetOr("0"))];
      assert o[1].tag == SaleType && o[2].tag == DldWaiver;
      assert forall k | 0 <= k < |o| :: o[k].tag == OffPlan || o[k].tag == SaleType || o[k].tag == DldWaiver;
    } else if row.saleType == Some("Resale") {
      assert o == [flag, sale, Field(OriginalPrice, row.originalPrice.GetOr("0")), Field(AmountPaid, row.amountPaid.GetOr("0"))];
      assert o[1].tag == SaleType && o[2].tag == OriginalPrice && o[3].tag == AmountPaid;
      assert forall k | 0 <= k < |o| :: o[k].tag == OffPlan || o[k].tag == SaleType || o[k].tag == OriginalPrice || o[k].tag == AmountPaid;
    } else {
      assert o == [flag, sale];
      assert o[1].tag == SaleType;
      assert forall k | 0 <= k < |o| :: o[k].tag == OffPlan || o[k].tag == SaleType;
    }
  }

  /** A tag of the off-plan block can only come from that block. */
  lemma OffPlanBlock(row: Row, lists: Lists, t: Tag)
    requires 22 <= Rank(t) <= 26
    ensures HasTag(PropertyElements(row, lists), t) <==> HasTag(OffPlanDetails(row), t)
  {
    BlockTag(row, lists, t);
  }

  lemma OffPlanIn(row: Row, lists: Lists, e: Element)
    requires e in OffPlanDetails(row)
    ensures e in PropertyElements(row, lists)
  {
  }

  /** A list the node can hold: present, with no array among its entries. */
  predicate Renderable(list: Option<seq<Json>>) {
    list.Some? && forall k :: 0 <= k < |list.value| ==> !list.value[k].JMap?
  }

  /** `ts` holds one child per entry of `items`, in order, each the trimmed
      text of its entry. */
  predicate TrimmedFrom(ts: seq<string>, items: seq<Json>) {
    |ts| == |items| && forall k :: 0 <= k < |items| ==> Some(ts[k]) == ItemText(items[k])
  }

  /** The lists of a node, each carrying its column's entries. */
  predicate ListsFrom(lists: Lists, features: seq<Json>, images: seq<Json>, videos: seq<Json>, portals: seq<Json>) {
    TrimmedFrom(lists.features, features) && TrimmedFrom(lists.images, images) &&
    TrimmedFrom(lists.videos, videos) && TrimmedFrom(lists.portals, portals)
  }

  /** A listing is skipped exactly when its portals form a list naming
      neither portal; it gets a node exactly when it is listed and all four
      lists are renderable; otherwise it fails. */
  lemma RenderOutcome(row: Row, decode: string -> Option<Json>)
    ensures Render(row, decode) == Skip <==>
      ListOf(row.portals, decode).Some? && !Listed(ListOf(row.portals, decode).value)
    ensures Render(row, decode).Emit? <==>
      Renderable(ListOf(row.portals, decode)) && Listed(ListOf(row.portals, decode).value) &&
      Renderable(ListOf(row.features, decode)) && Renderable(ListOf(row.images, decode)) &&
      Renderable(ListOf(row.videos, decode))
  {
    var p, f, i, v := ListOf(row.portals, decode), ListOf(row.features, decode),
                      ListOf(row.images, decode), ListOf(row.videos, decode);
    if p.Some? { ItemTextsSpec(p.value); }
    if f.Some? { ItemTextsSpec(f.value); }
    if i.Some? { ItemTextsSpec(i.value); }
    if v.Some? { ItemTextsSpec(v.value); }
  }

  /** A node's elements are the document-order children, each list carried
      entry by entry. */
  lemma RenderedLists(row: Row, decode: string -> Option<Json>)
    requires Render(row, decode).Emit?
    ensures exists lists ::
      && Render(row, decode).elements == PropertyElements(row, lists)
      && ListsFrom(lists, ListOf(row.features, decode).value, ListOf(row.images, decode).value,
                   ListOf(row.videos, decode).value, ListOf(row.portals, decode).value)
  {
    var p, f, i, v := ListOf(row.portals, decode).value, ListOf(row.features, decode).value,
                      ListOf(row.images, decode).value, ListOf(row.videos, decode).value;
    ItemTextsSpec(p);
    ItemTextsSpec(f);
    ItemTextsSpec(i);
    ItemTextsSpec(v);
    var lists := Lists(ItemTexts(f).value, ItemTexts(i).value, ItemTexts(v).value, ItemTexts(p).value);
    assert Render(row, decode).elements == PropertyElements(row, lists);
    assert ListsFrom(lists, f, i, v, p);
  }

  /** Each list element of a node sits at its own place among the children:
      the four lists in order just before the update time. */
  lemma ListsPlaced(row: Row, lists: Lists)
    ensures var es := PropertyElements(row, lists);
      |es| >= 5 &&
      es[|es| - 5] == Group(Features, lists.features) && es[|es| - 4] == Group(Images, lists.images) &&
      es[|es| - 3] == Group(Videos, lists.videos) && es[|es| - 2] == Group(Portals, lists.portals)
  {
    var front := Basics(row) + Pricing(row) + OffPlanDetails(row);
    assert PropertyElements(row, lists) == front + Closing(row, lists);
  }

  // ---------------------------------------------------------------------------
  // The document

  /** What the loop makes of each stored listing, in store order. */
  function Renders(rows: seq<Row>, decode: string -> Option<Json>): (ns: seq<Node>)
    ensures |ns| == |rows|
  {
    seq(|rows|, k requires 0 <= k < |rows| => Render(rows[k], decode))
  }

  /** The `Property` nodes of the document: one per emitted listing, in
      order; none at all when a listing makes the controller fail. */
  function Document(ns: seq<Node>): Option<seq<seq<Element>>>
    decreases |ns|
  {
    if |ns| == 0 then Some([])
    else
      var n := |ns| - 1;
      match Document(ns[..n])
      case None => None
      case Some(nodes) =>
        match ns[n]
        case Fail => None
        case Skip => Some(nodes)
        case Emit(es) => Some(nodes + [es])
  }

  /** The document over two runs of listings is the first's nodes followed by
      the second's: listings are rendered in store order, each on its own. */
  lemma {:induction false} DocumentAppend(a: seq<Node>, b: seq<Node>)
    ensures Document(a + b) ==
      if Document(a).None? || Document(b).None? then None
      else Some(Document(a).value + Document(b).value)
    decreases |b|
  {
    if |b| == 0 {
      assert a + b == a;
      assert Document(b) == Some([]);
      assert Document(a).Some? ==> Document(a).value + [] == Document(a).value;
    } else {
      var n := |b| - 1;
      assert (a + b)[..|a| + n] == a + b[..n];
      assert (a + b)[|a| + n] == b[n];
      DocumentAppend(a, b[..n]);
      if Document(a).Some? && Document(b[..n]).Some? && b[n].Emit? {
        assert Document(a).value + Document(b[..n]).value + [b[n].elements] ==
          Document(a).value + (Document(b[..n]).value + [b[n].elements]);
      }
    }
  }

  /** A single listing contributes its own node, nothing, or the failure. */
  lemma DocumentSingle(n: Node)
    ensures Document([n]) == match n
      case Fail => None
      case Skip => Some([])
      case Emit(es) => Some([es])
  {
    assert [n][..0] == [];
    assert n.Emit? ==> [] + [n.elements] == [n.elements];
  }

  /** Once a listing fails, so does the whole document. */
  lemma {:induction false} DocumentFails(ns: seq<Node>, r: nat)
    requires r < |ns| && ns[r] == Fail
    ensures Document(ns) == None
  {
    var front := ns[..r + 1];
    assert front[..r] == ns[..r];
    assert Document(front) == None;
    DocumentAppend(front, ns[r + 1..]);
    assert front + ns[r + 1..] == ns;
  }

  /** One turn of the loop: decode the portals and skip an unlisted listing,
      then build its node, the list elements by their own loops. */
  method RenderRow(row: Row, decode: string -> Option<Json>) returns (node: Node)
    ensures node == Render(row, decode)
  {
    var portals := ListOf(row.portals, decode);
    if portals.None? {
      return Fail;
    }
    if !Listed(portals.value) {
      return Skip;
    }
    var features := ListOf(row.features, decode);
    var images := ListOf(row.images, decode);
    var videos := ListOf(row.videos, decode);
    if features.None? || images.None? || videos.None? {
      return Fail;
    }
    var ft := TrimItems(features.value);
    var it := TrimItems(images.value);
    var vt := TrimItems(videos.value);
    var pt := TrimItems(portals.value);
    if ft.None? || it.None? || vt.None? || pt.None? {
      return Fail;
    }
    return Emit(PropertyElements(row, Lists(ft.value, it.value, vt.value, pt.value)));
  }

  /** generateXml: the loop over the stored listings, appending one
      `Property` node per listed one; a failure anywhere abandons the
      document. */
  method GenerateXml(rows: seq<Row>, decode: string -> Option<Json>) returns (doc: Option<seq<seq<Element>>>)
    ensures doc == Document(Renders(rows, decode))
  {
    ghost var ns := Renders(rows, decode);
    var nodes: seq<seq<Element>> := [];
    var r := 0;
    while r < |rows|
      invariant 0 <= r <= |rows|
      invariant Document(ns[..r]) == Some(nodes)
    {
      assert ns[..r + 1][..r] == ns[..r];
      var node := RenderRow(rows[r], decode);
      assert node == ns[r];
      match node {
        case Fail =>
          DocumentFails(ns, r);
          return None;
        case Skip =>
        case Emit(es) =>
          nodes := nodes + [es];
      }
      r := r + 1;
    }
    assert ns[..r] == ns;
    return Some(nodes);
  }
}
