/**
 * The arguments of `proxy redact`: the target size `WxH`, the regions `x,y,width,height` and
 * the optional replacement images, and the paste plan they give for every image.
 * Which pixels end up where is left to the imaging library; the plan records, for each image,
 * the size it is fitted to and what is pasted over each region.
 */
module ProxyRedact {
  import opened Wrappers
  import opened Text

  /** Python's `int()` on an optionally signed run of decimal digits. */
  function ParseInt(s: string): (r: Option<int>)
    ensures r.Some? ==> s != [] && (IsDigit(s[0]) || s[0] == '-' || s[0] == '+')
    ensures r.Some? && r.value < 0 ==> s[0] == '-'
  {
    if s != [] && AllDigits(s) then Some(DecimalValue(s))
    else if |s| >= 2 && s[0] == '-' && AllDigits(s[1..]) then Some(-(DecimalValue(s[1..]) as int))
    else if |s| >= 2 && s[0] == '+' && AllDigits(s[1..]) then Some(DecimalValue(s[1..]))
    else None
  }

  /** `int(str(i)) == i`. */
  lemma ParseIntRoundTrip(i: int)
    ensures ParseInt(IntToDecimal(i)) == Some(i)
  {
    IntToDecimalSign(i);
    var s := IntToDecimal(i);
    if i < 0 {
      var m := NatToDecimal(-i);
      assert s[0] == '-' && s[1..] == m && AllDigits(m);
      assert !(s != [] && AllDigits(s)) by { assert !IsDigit(s[0]); }
      DecimalRoundTrip(-i);
      assert DecimalValue(s[1..]) == -i;
    } else {
      assert s == NatToDecimal(i) && s != [] && AllDigits(s);
      DecimalRoundTrip(i);
    }
  }

  /** The decimal text of an integer holds no character other than digits and a minus sign. */
  lemma IntToDecimalAvoids(i: int, c: char)
    requires !IsDigit(c) && c != '-'
    ensures c !in IntToDecimal(i)
  {
    IntToDecimalSign(i);
    var s := IntToDecimal(i);
    if i < 0 {
      assert s == "-" + NatToDecimal(-i);
    }
  }

  /** `width, height = map(int, size.split("x"))`: exactly two integers. */
  function ParseSize(size: string): (r: Option<(int, int)>)
    ensures r.Some? ==> 'x' in size
  {
    var parts := Split(size, 'x');
    if |parts| != 2 then None
    else match (ParseInt(parts[0]), ParseInt(parts[1]))
      case (Some(w), Some(h)) => Some((w, h))
      case _ => None
  }

  /** The text `WxH` of a size. */
  function SizeText(width: int, height: int): string {
    Join([IntToDecimal(width), IntToDecimal(height)], 'x')
  }

  /** Every size written as `WxH` reads back as itself. */
  lemma SizeRoundTrip(width: int, height: int)
    ensures ParseSize(SizeText(width, height)) == Some((width, height))
  {
    var parts := [IntToDecimal(width), IntToDecimal(height)];
    IntToDecimalAvoids(width, 'x');
    IntToDecimalAvoids(height, 'x');
    SplitJoin(parts, 'x');
    ParseIntRoundTrip(width);
    ParseIntRoundTrip(height);
  }

  /** The default `--size` is 745 pixels wide and 1040 high. */
  const DefaultSize := "745x1040"

  lemma DefaultSizeParses()
    ensures ParseSize(DefaultSize) == Some((745, 1040))
  {
    assert IntToDecimal(745) == "745";
    assert IntToDecimal(1040) == "1040";
    assert SizeText(745, 1040) == DefaultSize;
    SizeRoundTrip(745, 1040);
  }

  /** A rectangle to redact: its top-left corner and its size. */
  datatype Region = Region(x: int, y: int, width: int, height: int)

  /** `x, y, w, h = map(int, region.split(","))`: exactly four integers. */
  function ParseRegion(s: string): (r: Option<Region>)
    ensures r.Some? ==> ',' in s
  {
    var parts := Split(s, ',');
    if |parts| != 4 then None
    else match (ParseInt(parts[0]), ParseInt(parts[1]), ParseInt(parts[2]), ParseInt(parts[3]))
      case (Some(x), Some(y), Some(w), Some(h)) => Some(Region(x, y, w, h))
      case _ => None
  }

  /** The text `x,y,width,height` of a region. */
  function RegionText(r: Region): string {
    Join([IntToDecimal(r.x), IntToDecimal(r.y), IntToDecimal(r.width), IntToDecimal(r.height)], ',')
  }

  /** Every region written as `x,y,width,height` reads back as itself. */
  lemma RegionRoundTrip(r: Region)
    ensures ParseRegion(RegionText(r)) == Some(r)
  {
    var parts := [IntToDecimal(r.x), IntToDecimal(r.y), IntToDecimal(r.width), IntToDecimal(r.height)];
    IntToDecimalAvoids(r.x, ',');
    IntToDecimalAvoids(r.y, ',');
    IntToDecimalAvoids(r.width, ',');
    IntToDecimalAvoids(r.height, ',');
    SplitJoin(parts, ',');
    ParseIntRoundTrip(r.x);
    ParseIntRoundTrip(r.y);
    ParseIntRoundTrip(r.width);
    ParseIntRoundTrip(r.height);
  }

  /** Three or five numbers, or a word, are not a region. */
  lemma MalformedRegions(three: string, five: string, word: string)
    requires three == "1,2,3" && five == "1,2,3,4,5" && word == "a,2,3,4"
    ensures ParseRegion(three) == None && ParseRegion(five) == None && ParseRegion(word) == None
  {
    ThreeNumbers(three);
    FiveNumbers(five);
    NotANumber(word);
  }

  lemma ThreeNumbers(s: string)
    requires s == "1,2,3"
    ensures |Split(s, ',')| == 3
  {
    SplitJoin(["1", "2", "3"], ',');
    assert Join(["1", "2", "3"], ',') == s;
  }

  lemma FiveNumbers(s: string)
    requires s == "1,2,3,4,5"
    ensures |Split(s, ',')| == 5
  {
    SplitJoin(["1", "2", "3", "4", "5"], ',');
    assert Join(["1", "2", "3", "4", "5"], ',') == s;
  }

  lemma NotANumber(s: string)
    requires s == "a,2,3,4"
    ensures |Split(s, ',')| == 4 && ParseInt(Split(s, ',')[0]) == None
  {
    SplitJoin(["a", "2", "3", "4"], ',');
    assert Join(["a", "2", "3", "4"], ',') == s;
    assert !IsDigit('a');
  }

  datatype RedactError =
    | BadSize             // `ValueError` from the size: raised
    | BadRegion(region: string)  // the first malformed region: logged, and the command returns
    | ReplacementCount    // replacements given, but not one per region: raised
    | ZeroHeight          // `ImageOps.contain` divides by the target height: raised at the first image
    | NonPositiveWidth    // the fitted width is not positive, and Pillow refuses to resize: raised

  /** Every region text parses. */
  predicate AllRegionsParse(regions: seq<string>) {
    forall i :: 0 <= i < |regions| ==> ParseRegion(regions[i]).Some?
  }

  /** `regions[k]` is the first region text that does not parse. */
  predicate FirstBadRegion(regions: seq<string>, k: int) {
    0 <= k < |regions| && ParseRegion(regions[k]).None?
    && forall j :: 0 <= j < k ==> ParseRegion(regions[j]).Some?
  }

  /** The regions loop: parse each text in order and stop at the first that fails. */
  method ParseRegions(regions: seq<string>) returns (r: Result<seq<Region>, RedactError>)
    ensures r.Success? <==> AllRegionsParse(regions)
    ensures r.Success? ==> |r.value| == |regions|
    ensures r.Success? ==> forall i :: 0 <= i < |regions| ==> ParseRegion(regions[i]) == Some(r.value[i])
    ensures r.Failure? ==> exists k :: FirstBadRegion(regions, k) && r.error == BadRegion(regions[k])
  {
    var parsed: seq<Region> := [];
    for i := 0 to |regions|
      invariant |parsed| == i
      invariant forall j :: 0 <= j < i ==> ParseRegion(regions[j]) == Some(parsed[j])
    {
      var region := ParseRegion(regions[i]);
      if region.None? {
        assert FirstBadRegion(regions, i);
        return Failure(BadRegion(regions[i]));
      }
      parsed := parsed + [region.value];
    }
    return Success(parsed);
  }

  /** `if args.replacement_images:` treats a missing list and an empty one alike. */
  function Given(replacements: Option<seq<string>>): seq<string> {
    if replacements.Some? then replacements.value else []
  }

  /** What is pasted over a region: replacement image `index`, or a black rectangle. */
  datatype Fill = Replacement(index: nat) | BlackRect

  datatype Patch = Patch(region: Region, fill: Fill)

  /** Region `i` is covered by replacement `i` when there is one, and by black otherwise. */
  predicate PatchesFor(patches: seq<Patch>, regions: seq<Region>, given: nat) {
    |patches| == |regions|
    && forall i :: 0 <= i < |regions| ==>
      patches[i].region == regions[i]
      && (patches[i].fill.Replacement? <==> i < given)
      && (patches[i].fill.Replacement? ==> patches[i].fill.index == i)
  }

  /** The loop over the regions of one image. */
  method RegionPatches(regions: seq<Region>, given: nat) returns (patches: seq<Patch>)
    ensures PatchesFor(patches, regions, given)
  {
    patches := [];
    for i := 0 to |regions|
      invariant PatchesFor(patches, regions[..i], given)
    {
      var fill := if given > 0 && i < given then Replacement(i) else BlackRect;
      patches := patches + [Patch(regions[i], fill)];
    }
    assert regions[..|regions|] == regions;
  }

  /** One image: fitted to `width` by `height`, then patched. */
  datatype Redaction = Redaction(image: string, width: int, height: int, patches: seq<Patch>)

  /** The redaction plan of every image, in order. */
  predicate PlanFor(plan: seq<Redaction>, images: seq<string>, width: int, height: int,
                    regions: seq<Region>, given: nat) {
    |plan| == |images|
    && forall k :: 0 <= k < |images| ==>
      plan[k].image == images[k] && plan[k].width == width && plan[k].height == height
      && PatchesFor(plan[k].patches, regions, given)
  }

  /** The size parses, every region parses, and the replacements are absent or one per region. */
  predicate ArgumentsValid(size: string, regions: seq<string>, replacements: Option<seq<string>>) {
    ParseSize(size).Some? && AllRegionsParse(regions)
    && (|Given(replacements)| == 0 || |Given(replacements)| == |regions|)
  }

  /**
   * `redact_images`: the size is parsed first, then every region, then the replacement count is
   * checked; only when all three succeed is any image touched. Fitting the first image to the size
   * fails for a zero height or a width that is not positive, before anything is saved.
   */
  method RedactImages(images: seq<string>, size: string, regions: seq<string>,
                      replacements: Option<seq<string>>)
    returns (r: Result<seq<Redaction>, RedactError>)
    ensures r == Failure(BadSize) <==> ParseSize(size).None?
    ensures r.Failure? && r.error.BadRegion? <==> ParseSize(size).Some? && !AllRegionsParse(regions)
    ensures r.Failure? && r.error.BadRegion? ==>
      exists k :: FirstBadRegion(regions, k) && r.error == BadRegion(regions[k])
    ensures r == Failure(ReplacementCount) <==>
      ParseSize(size).Some? && AllRegionsParse(regions)
      && |Given(replacements)| > 0 && |Given(replacements)| != |regions|
    ensures r == Failure(ZeroHeight) <==>
      ArgumentsValid(size, regions, replacements) && images != [] && ParseSize(size).value.1 == 0
    ensures r == Failure(NonPositiveWidth) <==>
      ArgumentsValid(size, regions, replacements) && images != []
      && ParseSize(size).value.1 != 0 && ParseSize(size).value.0 <= 0
    ensures r.Success? ==> images == [] || (ParseSize(size).value.0 > 0 && ParseSize(size).value.1 != 0)
    ensures r.Success? ==> exists parsed: seq<Region> ::
      |parsed| == |regions|
      && (forall i :: 0 <= i < |regions| ==> ParseRegion(regions[i]) == Some(parsed[i]))
      && PlanFor(r.value, images, ParseSize(size).value.0, ParseSize(size).value.1,
                 parsed, |Given(replacements)|)
  {
    var dims := ParseSize(size);
    if dims.None? {
      return Failure(BadSize);
    }
    var (width, height) := dims.value;
    var parsed := ParseRegions(regions);
    if parsed.Failure? {
      return Failure(parsed.error);
    }
    var given := Given(replacements);
    if |given| > 0 && |given| != |regions| {
      return Failure(ReplacementCount);
    }
    if images != [] && height == 0 {
      return Failure(ZeroHeight);
    }
    if images != [] && width <= 0 {
      return Failure(NonPositiveWidth);
    }
    var plan: seq<Redaction> := [];
    for k := 0 to |images|
      invariant PlanFor(plan, images[..k], width, height, parsed.value, |given|)
    {
      var patches := RegionPatches(parsed.value, |given|);
      plan := plan + [Redaction(images[k], width, height, patches)];
    }
    assert images[..|images|] == images;
    return Success(plan);
  }
}
