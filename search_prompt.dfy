/** VehicleSearchService.BuildSearchPrompt: the prompt sent to the chat
    model, as the lines a StringBuilder receives. */
module SearchPrompt {
  import opened Wrappers
  import opened Models
  import opened DotNetText

  /** What rendering takes from the environment: DateTime.Now.Year, and the
      current culture's `:N2` formatting of a decimal. */
  datatype RenderContext = RenderContext(currentYear: int, formatN2: real -> string)

  /** The criteria that can contribute a line, one per labelled line. */
  datatype Criterion =
    | Make | Model | YearRange | PriceRange | MaxMileage | Country
    | ProvinceState | City | PostalCode | Transmission | FuelType

  /** The fixed order in which criterion lines are written. */
  const CriterionOrder: seq<Criterion> :=
    [Make, Model, YearRange, PriceRange, MaxMileage, Country,
     ProvinceState, City, PostalCode, Transmission, FuelType]

  /** The position of a criterion in CriterionOrder. */
  function Rank(k: Criterion): (r: nat)
    ensures r < |CriterionOrder| && CriterionOrder[r] == k
  {
    match k
    case Make => 0
    case Model => 1
    case YearRange => 2
    case PriceRange => 3
    case MaxMileage => 4
    case Country => 5
    case ProvinceState => 6
    case City => 7
    case PostalCode => 8
    case Transmission => 9
    case FuelType => 10
  }

  /** The label that starts a criterion's line. */
  function Label(k: Criterion): string {
    match k
    case Make => "Make"
    case Model => "Model"
    case YearRange => "Year Range"
    case PriceRange => "Price Range"
    case MaxMileage => "Max Mileage"
    case Country => "Country"
    case ProvinceState => "Province/State"
    case City => "City"
    case PostalCode => "Postal Code"
    case Transmission => "Transmission"
    case FuelType => "Fuel Type"
  }

  /** The criteria given as free text; the other three are numeric. */
  predicate IsTextual(k: Criterion) {
    !(k.YearRange? || k.PriceRange? || k.MaxMileage?)
  }

  /** The criteria field behind a textual criterion. */
  function TextValue(c: VehicleSearchCriteria, k: Criterion): Option<string>
    requires IsTextual(k)
  {
    match k
    case Make => c.make
    case Model => c.model
    case Country => c.country
    case ProvinceState => c.province
    case City => c.city
    case PostalCode => c.postalCode
    case Transmission => c.transmission
    case FuelType => c.fuelType
  }

  /** The criteria with the field behind textual criterion `k` set to `v`. */
  function WithText(c: VehicleSearchCriteria, k: Criterion, v: Option<string>): (d: VehicleSearchCriteria)
    requires IsTextual(k)
    ensures TextValue(d, k) == v
    ensures forall k' :: IsTextual(k') && k' != k ==> TextValue(d, k') == TextValue(c, k')
    ensures d.yearMin == c.yearMin && d.yearMax == c.yearMax
    ensures d.priceMin == c.priceMin && d.priceMax == c.priceMax && d.mileageMax == c.mileageMax
  {
    match k
    case Make => c.(make := v)
    case Model => c.(model := v)
    case Country => c.(country := v)
    case ProvinceState => c.(province := v)
    case City => c.(city := v)
    case PostalCode => c.(postalCode := v)
    case Transmission => c.(transmission := v)
    case FuelType => c.(fuelType := v)
  }

  /** Whether the criterion contributes a line: a range when either bound is
      given, the mileage when given, a text when it is not blank. */
  predicate Present(c: VehicleSearchCriteria, k: Criterion)
    ensures IsTextual(k) && Present(c, k) ==> TextValue(c, k).Some? && TextValue(c, k).value != ""
  {
    match k
    case YearRange => c.yearMin.Some? || c.yearMax.Some?
    case PriceRange => c.priceMin.Some? || c.priceMax.Some?
    case MaxMileage => c.mileageMax.Some?
    case _ => !IsNullOrWhiteSpace(TextValue(c, k))
  }

  /** The line written for a criterion, "<Label>: <value>". A missing year
      bound shows as 1900 or the current year, a missing price bound as 0 or
      999999. */
  function Line(c: VehicleSearchCriteria, ctx: RenderContext, k: Criterion): (line: string)
    ensures IsTextual(k) && TextValue(c, k).Some? ==>
              var v := TextValue(c, k).value;
              |v| < |line| && line[|line| - |v|..] == v
  {
    match k
    case Make => "Make: " + c.make.GetOr("")
    case Model => "Model: " + c.model.GetOr("")
    case YearRange =>
      "Year Range: " + IntToString(c.yearMin.GetOr(1900)) + " - " + IntToString(c.yearMax.GetOr(ctx.currentYear))
    case PriceRange =>
      "Price Range: $" + ctx.formatN2(c.priceMin.GetOr(0.0)) + " - $" + ctx.formatN2(c.priceMax.GetOr(999999.0))
    case MaxMileage => "Max Mileage: " + IntToString(c.mileageMax.GetOr(0)) + " km"
    case Country => "Country: " + c.country.GetOr("")
    case ProvinceState => "Province/State: " + c.province.GetOr("")
    case City => "City: " + c.city.GetOr("")
    case PostalCode => "Postal Code: " + c.postalCode.GetOr("")
    case Transmission => "Transmission: " + c.transmission.GetOr("")
    case FuelType => "Fuel Type: " + c.fuelType.GetOr("")
  }

  /** Every line starts with its criterion's label and a colon. */
  lemma LineLabelled(c: VehicleSearchCriteria, ctx: RenderContext, k: Criterion)
    ensures |Label(k)| < |Line(c, ctx, k)|
    ensures Line(c, ctx, k)[..|Label(k)|] == Label(k) && Line(c, ctx, k)[|Label(k)|] == ':'
  {
  }

  /** The mileage line names the mileage exactly: two criteria give the same
      "Max Mileage" line if and only if their mileages agree. */
  lemma MileageLineInjective(c: VehicleSearchCriteria, d: VehicleSearchCriteria, ctx: RenderContext)
    ensures Line(c, ctx, MaxMileage) == Line(d, ctx, MaxMileage) <==> c.mileageMax.GetOr(0) == d.mileageMax.GetOr(0)
  {
    var a, b := IntToString(c.mileageMax.GetOr(0)), IntToString(d.mileageMax.GetOr(0));
    var p := "Max Mileage: ";
    if p + a + " km" == p + b + " km" {
      assert a == (p + a + " km")[|p|..|p| + |a|];
      assert b == (p + b + " km")[|p|..|p| + |b|];
      IntToStringInjective(c.mileageMax.GetOr(0), d.mileageMax.GetOr(0));
    }
  }

  /** The year line names both bounds exactly: two criteria give the same
      "Year Range" line if and only if their bounds agree once the defaults
      (1900 and the current year) fill the missing ones. */
  lemma YearLineInjective(c: VehicleSearchCriteria, d: VehicleSearchCriteria, ctx: RenderContext)
    ensures Line(c, ctx, YearRange) == Line(d, ctx, YearRange) <==>
              c.yearMin.GetOr(1900) == d.yearMin.GetOr(1900) &&
              c.yearMax.GetOr(ctx.currentYear) == d.yearMax.GetOr(ctx.currentYear)
  {
    var lo1, hi1 := c.yearMin.GetOr(1900), c.yearMax.GetOr(ctx.currentYear);
    var lo2, hi2 := d.yearMin.GetOr(1900), d.yearMax.GetOr(ctx.currentYear);
    var p := "Year Range: ";
    if Line(c, ctx, YearRange) == Line(d, ctx, YearRange) {
      var a1, a2 := IntToString(lo1), IntToString(lo2);
      var b1, b2 := IntToString(hi1), IntToString(hi2);
      IntToStringHasNoSpace(lo1);
      IntToStringHasNoSpace(lo2);
      SplitAtSeparator(p, a1, b1, a2, b2);
      IntToStringInjective(lo1, lo2);
      IntToStringInjective(hi1, hi2);
    }
  }

  /** A rendered integer holds no space. */
  lemma IntToStringHasNoSpace(n: int)
    ensures ' ' !in IntToString(n)
  {
    var s := IntToString(n);
    forall i | 0 <= i < |s|
      ensures s[i] != ' '
    {
      if i > 0 || n >= 0 {
        assert IsDigit(s[i]);
      }
    }
  }

  /** After a common prefix, two texts without a space, each followed by
      " - " and a tail, read the same only when the heads and the tails agree. */
  lemma SplitAtSeparator(p: string, a1: string, b1: string, a2: string, b2: string)
    requires ' ' !in a1 && ' ' !in a2
    requires p + a1 + " - " + b1 == p + a2 + " - " + b2
    ensures a1 == a2 && b1 == b2
  {
    HeadNotShorter(p, a1, b1, a2, b2);
    HeadNotShorter(p, a2, b2, a1, b1);
    var s := p + a1 + " - " + b1;
    assert a1 == s[|p|..|p| + |a1|];
    assert a2 == (p + a2 + " - " + b2)[|p|..|p| + |a2|];
    assert b1 == s[|p| + |a1| + 3..];
    assert b2 == (p + a2 + " - " + b2)[|p| + |a2| + 3..];
  }

  /** The separator's space cannot fall inside a head without spaces. */
  lemma HeadNotShorter(p: string, a1: string, b1: string, a2: string, b2: string)
    requires ' ' !in a2
    requires p + a1 + " - " + b1 == p + a2 + " - " + b2
    ensures |a2| <= |a1|
  {
    if |a1| < |a2| {
      SpaceInLongerHead(p, a1, b1, a2, b2);
    }
  }

  /** Where two such texts agree, the longer head holds the separator's
      space at the shorter head's length. */
  lemma SpaceInLongerHead(p: string, a1: string, b1: string, a2: string, b2: string)
    requires p + a1 + " - " + b1 == p + a2 + " - " + b2
    requires |a1| < |a2|
    ensures a2[|a1|] == ' '
  {
    assert (p + a1 + " - " + b1)[|p| + |a1|] == ' ';
  }

  /** The line a criterion contributes: none when it is absent. */
  function Opt(c: VehicleSearchCriteria, ctx: RenderContext, k: Criterion): seq<string> {
    if Present(c, k) then [Line(c, ctx, k)] else []
  }

  // The fixed lines of the prompt.
  const SearchRequestLine: string := "Search for vehicles for sale based on the following criteria:"
  const WebsitesLine: string :=
    "Please search popular automotive websites like Car Gurus, Clutch, AutoTrader, Kijiji, and other relevant platforms."
  const FieldsIntroLine: string := "For each vehicle found, provide the following information in JSON format:"
  const FieldsLine1: string := "- Make, Model, Year, Trim"
  const FieldsLine2: string := "- Mileage, Color, Transmission, FuelType"
  const FieldsLine3: string := "- Price"
  const FieldsLine4: string := "- IsGoodPrice (boolean indicating if this is a good deal based on market value)"
  const FieldsLine5: string := "- ListingUrl (the public URL to view the listing)"
  const FieldsLine6: string := "- DealerName, SellerPhone, SellerEmail"
  const FieldsLine7: string := "- Location (full location string)"
  const FieldsLine8: string := "- Source (website name)"
  const FieldsLine9: string := "- VIN (if available)"
  const LastLine: string := "Return results as a JSON array of vehicle objects."

  /** The lines written before the criteria. */
  const Preamble: seq<string> := [SearchRequestLine, WebsitesLine, ""]

  /** The lines written after the criteria. */
  const Trailer: seq<string> := [
    "", FieldsIntroLine, FieldsLine1, FieldsLine2, FieldsLine3, FieldsLine4, FieldsLine5,
    FieldsLine6, FieldsLine7, FieldsLine8, FieldsLine9, "", LastLine]

  /** The lines the first `n` criteria of CriterionOrder contribute, when
      criterion `k` contributes `opt(k)`. */
  function Collect(opt: Criterion -> seq<string>, n: nat): seq<string>
    requires n <= |CriterionOrder|
  {
    if n == 0 then [] else Collect(opt, n - 1) + opt(CriterionOrder[n - 1])
  }

  /** The criteria of CriterionOrder that satisfy `present` among its first
      `n`, in that order. */
  function Filter(present: Criterion -> bool, n: nat): seq<Criterion>
    requires n <= |CriterionOrder|
  {
    if n == 0 then []
    else
      var k := CriterionOrder[n - 1];
      Filter(present, n - 1) + (if present(k) then [k] else [])
  }

  /** The lines of the criteria `ks`, in order. */
  function LinesOf(line: Criterion -> string, ks: seq<Criterion>): seq<string> {
    if ks == [] then [] else LinesOf(line, ks[..|ks| - 1]) + [line(ks[|ks| - 1])]
  }

  // Opt, Present and Line with the criteria and the context fixed.
  function OptOf(c: VehicleSearchCriteria, ctx: RenderContext): Criterion -> seq<string> {
    k => Opt(c, ctx, k)
  }
  function PresentOf(c: VehicleSearchCriteria): Criterion -> bool {
    k => Present(c, k)
  }
  function LineOf(c: VehicleSearchCriteria, ctx: RenderContext): Criterion -> string {
    k => Line(c, ctx, k)
  }

  /** The criterion lines of the prompt. */
  function Section(c: VehicleSearchCriteria, ctx: RenderContext): seq<string> {
    Collect(OptOf(c, ctx), |CriterionOrder|)
  }

  /** The criteria whose lines the prompt holds, in the order written. */
  function PresentCriteria(c: VehicleSearchCriteria): seq<Criterion> {
    Filter(PresentOf(c), |CriterionOrder|)
  }

  /** All lines of the prompt. */
  function PromptLines(c: VehicleSearchCriteria, ctx: RenderContext): seq<string> {
    Preamble + Section(c, ctx) + Trailer
  }

  /** The first `n` criteria keep exactly those among them that satisfy
      `present`, at most one each, in strictly increasing rank. */
  lemma {:induction false} FilterSpec(present: Criterion -> bool, n: nat)
    requires n <= |CriterionOrder|
    ensures forall k :: k in Filter(present, n) <==> present(k) && Rank(k) < n
    ensures forall i, j :: 0 <= i < j < |Filter(present, n)| ==>
              Rank(Filter(present, n)[i]) < Rank(Filter(present, n)[j])
    ensures |Filter(present, n)| <= n
  {
    if n > 0 {
      FilterSpec(present, n - 1);
    }
  }

  lemma {:induction false} LinesOfIndex(line: Criterion -> string, ks: seq<Criterion>)
    ensures |LinesOf(line, ks)| == |ks|
    ensures forall i :: 0 <= i < |ks| ==> LinesOf(line, ks)[i] == line(ks[i])
  {
    if ks != [] {
      LinesOfIndex(line, ks[..|ks| - 1]);
    }
  }

  /** When each criterion contributes its line exactly when it is present,
      the collected lines are the lines of the present criteria. */
  lemma {:induction false} CollectLines(opt: Criterion -> seq<string>, present: Criterion -> bool,
                                        line: Criterion -> string, n: nat)
    requires n <= |CriterionOrder|
    requires forall k :: opt(k) == (if present(k) then [line(k)] else [])
    ensures Collect(opt, n) == LinesOf(line, Filter(present, n))
  {
    if n > 0 {
      CollectLines(opt, present, line, n - 1);
      var ks := Filter(present, n - 1);
      var k := CriterionOrder[n - 1];
      if present(k) {
        assert (ks + [k])[..|ks|] == ks;
      } else {
        assert ks + [] == ks;
      }
    }
  }

  /** Pointwise equal contributions collect to the same lines. */
  lemma {:induction false} CollectCongruent(opt1: Criterion -> seq<string>, opt2: Criterion -> seq<string>, n: nat)
    requires n <= |CriterionOrder|
    requires forall k :: opt1(k) == opt2(k)
    ensures Collect(opt1, n) == Collect(opt2, n)
  {
    if n > 0 {
      CollectCongruent(opt1, opt2, n - 1);
    }
  }

  /** One more criterion of CriterionOrder appends its contribution. */
  lemma CollectStep(opt: Criterion -> seq<string>, pre: seq<string>, n: nat)
    requires n < |CriterionOrder|
    ensures pre + Collect(opt, n + 1) == pre + Collect(opt, n) + opt(CriterionOrder[n])
  {
  }

  /** The criterion lines are the lines of the present criteria, in order. */
  lemma SectionLines(c: VehicleSearchCriteria, ctx: RenderContext)
    ensures Section(c, ctx) == LinesOf(LineOf(c, ctx), PresentCriteria(c))
  {
    CollectLines(OptOf(c, ctx), PresentOf(c), LineOf(c, ctx), |CriterionOrder|);
  }

  /** Reading a criterion back from a line: the text before the first ':'
      names it. */
  function CriterionOfLabel(s: string): (r: Option<Criterion>)
    ensures r.Some? ==> Label(r.value) == s
  {
    if s == "Make" then Some(Make)
    else if s == "Model" then Some(Model)
    else if s == "Year Range" then Some(YearRange)
    else if s == "Price Range" then Some(PriceRange)
    else if s == "Max Mileage" then Some(MaxMileage)
    else if s == "Country" then Some(Country)
    else if s == "Province/State" then Some(ProvinceState)
    else if s == "City" then Some(City)
    else if s == "Postal Code" then Some(PostalCode)
    else if s == "Transmission" then Some(Transmission)
    else if s == "Fuel Type" then Some(FuelType)
    else None
  }

  function CriterionOfLine(line: string): Option<Criterion> {
    var i := IndexOf(line, ':');
    if i < 0 then None else CriterionOfLabel(line[..i])
  }

  /** Every label reads back as its own criterion. */
  lemma LabelDecodes(k: Criterion)
    ensures ':' !in Label(k)
    ensures CriterionOfLabel(Label(k)) == Some(k)
  {
  }

  /** Every criterion line reads back as the criterion that wrote it, so
      distinct criteria never write the same line. */
  lemma LineDecodes(c: VehicleSearchCriteria, ctx: RenderContext, k: Criterion)
    ensures CriterionOfLine(Line(c, ctx, k)) == Some(k)
  {
    var line := Line(c, ctx, k);
    var n := |Label(k)|;
    LabelDecodes(k);
    LineLabelled(c, ctx, k);
    assert IndexOf(line, ':') == n;
  }

  lemma LineInjective(c: VehicleSearchCriteria, ctx: RenderContext, k1: Criterion, k2: Criterion)
    ensures Line(c, ctx, k1) == Line(c, ctx, k2) <==> k1 == k2
  {
    LineDecodes(c, ctx, k1);
    LineDecodes(c, ctx, k2);
  }

  /** Each criterion line is the line of the present criterion at the same
      position, and reads back as that criterion. */
  lemma SectionEntries(c: VehicleSearchCriteria, ctx: RenderContext)
    ensures |Section(c, ctx)| == |PresentCriteria(c)|
    ensures forall i :: 0 <= i < |Section(c, ctx)| ==>
              Section(c, ctx)[i] == Line(c, ctx, PresentCriteria(c)[i])
              && CriterionOfLine(Section(c, ctx)[i]) == Some(PresentCriteria(c)[i])
  {
    var ks := PresentCriteria(c);
    SectionLines(c, ctx);
    LinesOfIndex(LineOf(c, ctx), ks);
    forall i | 0 <= i < |ks| ensures CriterionOfLine(Line(c, ctx, ks[i])) == Some(ks[i]) {
      LineDecodes(c, ctx, ks[i]);
    }
  }

  /** A criterion's line is among the criterion lines exactly when the
      criterion is present. */
  lemma SectionMembership(c: VehicleSearchCriteria, ctx: RenderContext, k: Criterion)
    ensures Line(c, ctx, k) in Section(c, ctx) <==> Present(c, k)
  {
    if Line(c, ctx, k) in Section(c, ctx) {
      OnlyPresentInSection(c, ctx, k);
    }
    if Present(c, k) {
      PresentInSection(c, ctx, k);
    }
  }

  lemma OnlyPresentInSection(c: VehicleSearchCriteria, ctx: RenderContext, k: Criterion)
    requires Line(c, ctx, k) in Section(c, ctx)
    ensures Present(c, k)
  {
    var s := Section(c, ctx);
    var ks := PresentCriteria(c);
    SectionEntries(c, ctx);
    FilterSpec(PresentOf(c), |CriterionOrder|);
    var i :| 0 <= i < |s| && s[i] == Line(c, ctx, k);
    LineInjective(c, ctx, k, ks[i]);
    assert PresentOf(c)(ks[i]);
  }

  lemma PresentInSection(c: VehicleSearchCriteria, ctx: RenderContext, k: Criterion)
    requires Present(c, k)
    ensures Line(c, ctx, k) in Section(c, ctx)
  {
    var s := Section(c, ctx);
    var ks := PresentCriteria(c);
    SectionEntries(c, ctx);
    FilterSpec(PresentOf(c), |CriterionOrder|);
    assert PresentOf(c)(k);
    var i :| 0 <= i < |ks| && ks[i] == k;
    assert s[i] == Line(c, ctx, k);
  }

  /** Every criterion line names a present criterion, the lines follow
      CriterionOrder, and there is at most one per criterion. */
  lemma SectionOrdered(c: VehicleSearchCriteria, ctx: RenderContext)
    ensures forall i :: 0 <= i < |Section(c, ctx)| ==>
              var k := CriterionOfLine(Section(c, ctx)[i]);
              k.Some? && Present(c, k.value) && Section(c, ctx)[i] == Line(c, ctx, k.value)
    ensures forall i, j :: 0 <= i < j < |Section(c, ctx)| ==>
              Rank(CriterionOfLine(Section(c, ctx)[i]).value) < Rank(CriterionOfLine(Section(c, ctx)[j]).value)
    ensures |Section(c, ctx)| <= |CriterionOrder|
  {
    var ks := PresentCriteria(c);
    SectionEntries(c, ctx);
    FilterSpec(PresentOf(c), |CriterionOrder|);
    forall i | 0 <= i < |ks| ensures Present(c, ks[i]) {
      assert PresentOf(c)(ks[i]);
    }
  }

  /** No line is written twice. */
  lemma SectionDistinct(c: VehicleSearchCriteria, ctx: RenderContext)
    ensures forall i, j :: 0 <= i < j < |Section(c, ctx)| ==> Section(c, ctx)[i] != Section(c, ctx)[j]
  {
    SectionOrdered(c, ctx);
  }

  /** Criteria that give every criterion the same contribution have the
      same criterion lines. */
  lemma SectionCongruent(c1: VehicleSearchCriteria, c2: VehicleSearchCriteria, ctx: RenderContext)
    requires forall k :: Opt(c1, ctx, k) == Opt(c2, ctx, k)
    ensures Section(c1, ctx) == Section(c2, ctx)
  {
    CollectCongruent(OptOf(c1, ctx), OptOf(c2, ctx), |CriterionOrder|);
  }

  /** A missing lower year bound is written as 1900. */
  lemma YearMinDefault(c: VehicleSearchCriteria, ctx: RenderContext)
    requires c.yearMax.Some?
    ensures Section(c.(yearMin := None), ctx) == Section(c.(yearMin := Some(1900)), ctx)
  {
    SectionCongruent(c.(yearMin := None), c.(yearMin := Some(1900)), ctx);
  }

  /** A missing upper year bound is written as the current year. */
  lemma YearMaxDefault(c: VehicleSearchCriteria, ctx: RenderContext)
    requires c.yearMin.Some?
    ensures Section(c.(yearMax := None), ctx) == Section(c.(yearMax := Some(ctx.currentYear)), ctx)
  {
    SectionCongruent(c.(yearMax := None), c.(yearMax := Some(ctx.currentYear)), ctx);
  }

  /** A missing lower price bound is written as 0. */
  lemma PriceMinDefault(c: VehicleSearchCriteria, ctx: RenderContext)
    requires c.priceMax.Some?
    ensures Section(c.(priceMin := None), ctx) == Section(c.(priceMin := Some(0.0)), ctx)
  {
    SectionCongruent(c.(priceMin := None), c.(priceMin := Some(0.0)), ctx);
  }

  /** A missing upper price bound is written as 999999. */
  lemma PriceMaxDefault(c: VehicleSearchCriteria, ctx: RenderContext)
    requires c.priceMin.Some?
    ensures Section(c.(priceMax := None), ctx) == Section(c.(priceMax := Some(999999.0)), ctx)
  {
    SectionCongruent(c.(priceMax := None), c.(priceMax := Some(999999.0)), ctx);
  }

  /** A blank text criterion is treated as one not given. */
  lemma BlankTextOmitted(c: VehicleSearchCriteria, ctx: RenderContext, k: Criterion, v: Option<string>)
    requires IsTextual(k) && IsNullOrWhiteSpace(v)
    ensures Section(WithText(c, k, v), ctx) == Section(WithText(c, k, None), ctx)
  {
    var c1 := WithText(c, k, v);
    var c2 := WithText(c, k, None);
    forall k' ensures Opt(c1, ctx, k') == Opt(c2, ctx, k') {
      if IsTextual(k') && k' != k {
        assert TextValue(c1, k') == TextValue(c2, k');
      }
    }
    SectionCongruent(c1, c2, ctx);
  }

  /** The prompt is the preamble, the criterion lines and the trailer, each
      line ended by a newline. */
  lemma PromptFrame(c: VehicleSearchCriteria, ctx: RenderContext)
    ensures Render(PromptLines(c, ctx)) == Render(Preamble) + Render(Section(c, ctx)) + Render(Trailer)
  {
    RenderAppend(Preamble + Section(c, ctx), Trailer);
    RenderAppend(Preamble, Section(c, ctx));
  }

  /** Appending the trailer line by line appends Trailer. */
  lemma TrailerAppended(ls: seq<string>)
    ensures ls + [""] + [FieldsIntroLine] + [FieldsLine1] + [FieldsLine2] + [FieldsLine3] + [FieldsLine4]
          + [FieldsLine5] + [FieldsLine6] + [FieldsLine7] + [FieldsLine8] + [FieldsLine9] + [""] + [LastLine]
         == ls + Trailer
  {
  }

  /** The guarded AppendLine of BuildSearchPrompt for criterion `k`:
      its line is written exactly when the criterion is present. */
  method AppendCriterion(promptBuilder: StringBuilder, criteria: VehicleSearchCriteria,
                         ctx: RenderContext, k: Criterion)
    modifies promptBuilder
    ensures promptBuilder.lines == old(promptBuilder.lines) + Opt(criteria, ctx, k)
  {
    match k
    case Make =>
      if !IsNullOrWhiteSpace(criteria.make) {
        promptBuilder.AppendLine("Make: " + criteria.make.value);
      }
    case Model =>
      if !IsNullOrWhiteSpace(criteria.model) {
        promptBuilder.AppendLine("Model: " + criteria.model.value);
      }
    case YearRange =>
      if criteria.yearMin.Some? || criteria.yearMax.Some? {
        promptBuilder.AppendLine("Year Range: " + IntToString(criteria.yearMin.GetOr(1900))
                          + " - " + IntToString(criteria.yearMax.GetOr(ctx.currentYear)));
      }
    case PriceRange =>
      if criteria.priceMin.Some? || criteria.priceMax.Some? {
        promptBuilder.AppendLine("Price Range: $" + ctx.formatN2(criteria.priceMin.GetOr(0.0))
                          + " - $" + ctx.formatN2(criteria.priceMax.GetOr(999999.0)));
      }
    case MaxMileage =>
      if criteria.mileageMax.Some? {
        promptBuilder.AppendLine("Max Mileage: " + IntToString(criteria.mileageMax.value) + " km");
      }
    case Country =>
      if !IsNullOrWhiteSpace(criteria.country) {
        promptBuilder.AppendLine("Country: " + criteria.country.value);
      }
    case ProvinceState =>
      if !IsNullOrWhiteSpace(criteria.province) {
        promptBuilder.AppendLine("Province/State: " + criteria.province.value);
      }
    case City =>
      if !IsNullOrWhiteSpace(criteria.city) {
        promptBuilder.AppendLine("City: " + criteria.city.value);
      }
    case PostalCode =>
      if !IsNullOrWhiteSpace(criteria.postalCode) {
        promptBuilder.AppendLine("Postal Code: " + criteria.postalCode.value);
      }
    case Transmission =>
      if !IsNullOrWhiteSpace(criteria.transmission) {
        promptBuilder.AppendLine("Transmission: " + criteria.transmission.value);
      }
    case FuelType =>
      if !IsNullOrWhiteSpace(criteria.fuelType) {
        promptBuilder.AppendLine("Fuel Type: " + criteria.fuelType.value);
      }
  }

  /** BuildSearchPrompt: the preamble, one line per present criterion in
      CriterionOrder, then the trailer, each ended by a newline. */
  method BuildSearchPrompt(criteria: VehicleSearchCriteria, ctx: RenderContext) returns (prompt: string)
    ensures prompt == Render(PromptLines(criteria, ctx))
  {
    var promptBuilder := new StringBuilder();
    promptBuilder.AppendLine(SearchRequestLine);
    promptBuilder.AppendLine(WebsitesLine);
    promptBuilder.AppendLine("");
    assert promptBuilder.lines == Preamble + Collect(OptOf(criteria, ctx), 0);

    AppendCriterion(promptBuilder, criteria, ctx, Make);
    CollectStep(OptOf(criteria, ctx), Preamble, 0);
    AppendCriterion(promptBuilder, criteria, ctx, Model);
    CollectStep(OptOf(criteria, ctx), Preamble, 1);
    AppendCriterion(promptBuilder, criteria, ctx, YearRange);
    CollectStep(OptOf(criteria, ctx), Preamble, 2);
    AppendCriterion(promptBuilder, criteria, ctx, PriceRange);
    CollectStep(OptOf(criteria, ctx), Preamble, 3);
    AppendCriterion(promptBuilder, criteria, ctx, MaxMileage);
    CollectStep(OptOf(criteria, ctx), Preamble, 4);
    AppendCriterion(promptBuilder, criteria, ctx, Country);
    CollectStep(OptOf(criteria, ctx), Preamble, 5);
    AppendCriterion(promptBuilder, criteria, ctx, ProvinceState);
    CollectStep(OptOf(criteria, ctx), Preamble, 6);
    AppendCriterion(promptBuilder, criteria, ctx, City);
    CollectStep(OptOf(criteria, ctx), Preamble, 7);
    AppendCriterion(promptBuilder, criteria, ctx, PostalCode);
    CollectStep(OptOf(criteria, ctx), Preamble, 8);
    AppendCriterion(promptBuilder, criteria, ctx, Transmission);
    CollectStep(OptOf(criteria, ctx), Preamble, 9);
    AppendCriterion(promptBuilder, criteria, ctx, FuelType);
    CollectStep(OptOf(criteria, ctx), Preamble, 10);
    ghost var withSection := promptBuilder.lines;

    promptBuilder.AppendLine("");
    promptBuilder.AppendLine(FieldsIntroLine);
    promptBuilder.AppendLine(FieldsLine1);
    promptBuilder.AppendLine(FieldsLine2);
    promptBuilder.AppendLine(FieldsLine3);
    promptBuilder.AppendLine(FieldsLine4);
    promptBuilder.AppendLine(FieldsLine5);
    promptBuilder.AppendLine(FieldsLine6);
    promptBuilder.AppendLine(FieldsLine7);
    promptBuilder.AppendLine(FieldsLine8);
    promptBuilder.AppendLine(FieldsLine9);
    promptBuilder.AppendLine("");
    promptBuilder.AppendLine(LastLine);
    TrailerAppended(withSection);

    prompt := promptBuilder.ToString();
  }
}
