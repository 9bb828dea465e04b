/** Feeds and regions, by name and by number (preconfs-client/src/feed.rs). */
module Feeds {
  import opened Wrappers
  import opened Proto

  datatype Feed = Harmonic | Bam

  datatype HarmonicRegion = HUnspecified | HAms | HEwr | HFra | HLon | HTyo | HSgp | HSlc

  datatype BamRegion =
    | BUnspecified | BAms | BDfw | BDub | BEwr | BFra | BHkg | BIad
    | BLax | BLon | BPit | BSea | BSin | BSlc | BSqq | BTyo

  datatype Region = HarmonicIn(harmonic: HarmonicRegion) | BamIn(bam: BamRegion)

  datatype RegionError =
    | UnknownFeed(name: string)
    | UnknownRegion(feed: Feed, name: string)
    | Format(value: string)
    | WrongFeed(expected: Feed, region: Region)

  const HARMONIC_TABLE: seq<(string, HarmonicRegion)> := [
    ("ams", HAms), ("ewr", HEwr), ("fra", HFra), ("lon", HLon),
    ("tyo", HTyo), ("sgp", HSgp), ("slc", HSlc)]

  const BAM_TABLE: seq<(string, BamRegion)> := [
    ("ams", BAms), ("dfw", BDfw), ("dub", BDub), ("ewr", BEwr), ("fra", BFra),
    ("hkg", BHkg), ("iad", BIad), ("lax", BLax), ("lon", BLon), ("pit", BPit),
    ("sea", BSea), ("sin", BSin), ("slc", BSlc), ("sqq", BSqq), ("tyo", BTyo)]

  /** `to_ascii_lowercase`, on one byte. */
  function LowerChar(c: char): char {
    if 'A' <= c <= 'Z' then (c as int + 32) as char else c
  }

  function Lower(s: string): (t: string)
    ensures |t| == |s|
  {
    seq(|s|, i requires 0 <= i < |s| => LowerChar(s[i]))
  }

  /** `iter().find` on the name of an entry. */
  function FindName<R>(table: seq<(string, R)>, name: string): Option<R> {
    if table == [] then None
    else if table[0].0 == name then Some(table[0].1)
    else FindName(table[1..], name)
  }

  /** `iter().find` on the region of an entry. */
  function FindRegion<R(==)>(table: seq<(string, R)>, region: R): string {
    if table == [] then "unspecified"
    else if table[0].1 == region then table[0].0
    else FindRegion(table[1..], region)
  }

  function FeedName(feed: Feed): string {
    match feed
    case Harmonic => "harmonic"
    case Bam => "bam"
  }

  function ParseFeed(name: string): Result<Feed, RegionError> {
    var lower := Lower(name);
    if lower == "harmonic" then Ok(Harmonic)
    else if lower == "bam" then Ok(Bam)
    else Err(UnknownFeed(name))
  }

  function ParseRegion(feed: Feed, name: string): Result<Region, RegionError> {
    var lower := Lower(name);
    match feed
    case Harmonic =>
      var found := FindName(HARMONIC_TABLE, lower);
      if found.Some? then Ok(HarmonicIn(found.value)) else Err(UnknownRegion(feed, name))
    case Bam =>
      var found := FindName(BAM_TABLE, lower);
      if found.Some? then Ok(BamIn(found.value)) else Err(UnknownRegion(feed, name))
  }

  function FeedOf(region: Region): Feed {
    match region
    case HarmonicIn(_) => Harmonic
    case BamIn(_) => Bam
  }

  function RegionName(region: Region): string {
    match region
    case HarmonicIn(r) => FindRegion(HARMONIC_TABLE, r)
    case BamIn(r) => FindRegion(BAM_TABLE, r)
  }

  /** The enum numbers of the proto. */
  function IntoProto(region: Region): RequestRegion {
    match region
    case HarmonicIn(r) => HarmonicNumber(
      match r
      case HUnspecified => 0 case HAms => 1 case HEwr => 2 case HFra => 3
      case HLon => 4 case HTyo => 5 case HSgp => 6 case HSlc => 7)
    case BamIn(r) => BamNumber(
      match r
      case BUnspecified => 0 case BAms => 1 case BDfw => 2 case BDub => 3
      case BEwr => 4 case BFra => 5 case BHkg => 6 case BIad => 7
      case BLax => 8 case BLon => 9 case BPit => 10 case BSea => 11
      case BSin => 12 case BSlc => 13 case BSqq => 14 case BTyo => 15)
  }

  /** The index of the first `c`, or the length. */
  function IndexOf(s: string, c: char): (i: nat)
    ensures i <= |s| && (i < |s| ==> s[i] == c) && (forall k :: 0 <= k < i ==> s[k] != c)
  {
    if s == [] || s[0] == c then 0 else 1 + IndexOf(s[1..], c)
  }

  /** `feed:region`, split at the first colon. */
  function ParseSpec(value: string): Result<Region, RegionError> {
    var colon := IndexOf(value, ':');
    if colon == |value| then Err(Format(value)) else
    match ParseFeed(value[..colon])
    case Err(error) => Err(error)
    case Ok(feed) => ParseRegion(feed, value[colon + 1..])
  }

  function Display(region: Region): string {
    FeedName(FeedOf(region)) + ":" + RegionName(region)
  }

  /** The region is served: not the proto's zero value. */
  predicate Specified(region: Region) {
    region != HarmonicIn(HUnspecified) && region != BamIn(BUnspecified)
  }

  // ----- printing and parsing -----

  /** A name is found in a table exactly when it is the name of a region of it,
      given that names and regions each occur once. */
  lemma {:induction false} TableInverse<R>(table: seq<(string, R)>, name: string, region: R)
    requires forall i, j :: 0 <= i < j < |table| ==> table[i].0 != table[j].0 && table[i].1 != table[j].1
    requires forall i :: 0 <= i < |table| ==> table[i].0 != "unspecified"
    ensures FindName(table, name) == Some(region)
            <==> name == FindRegion(table, region) && name != "unspecified"
  {
    if table == [] {
    } else {
      TableInverse(table[1..], name, region);
      if table[0].0 == name && table[0].1 != region {
        NotFound(table[1..], name, region);
      } else if table[0].1 == region && table[0].0 != name {
        NotFound(table[1..], name, region);
      }
    }
  }

  lemma {:induction false} NotFound<R>(table: seq<(string, R)>, name: string, region: R)
    ensures (forall i :: 0 <= i < |table| ==> table[i].0 != name) ==>
              FindName(table, name) == None && (name != "unspecified" ==> FindRegion(table, region) != name)
    ensures (forall i :: 0 <= i < |table| ==> table[i].1 != region) ==> FindName(table, name) != Some(region)
  {
    if table == [] {
    } else {
      NotFound(table[1..], name, region);
      assert table[0] == table[0];
    }
  }

  lemma {:induction false} HarmonicTableDistinct()
    ensures forall i, j :: 0 <= i < j < |HARMONIC_TABLE| ==>
              HARMONIC_TABLE[i].0 != HARMONIC_TABLE[j].0 && HARMONIC_TABLE[i].1 != HARMONIC_TABLE[j].1
    ensures forall i :: 0 <= i < |HARMONIC_TABLE| ==> HARMONIC_TABLE[i].0 != "unspecified"
  {}

  lemma {:induction false} BamTableDistinct()
    ensures forall i, j :: 0 <= i < j < |BAM_TABLE| ==>
              BAM_TABLE[i].0 != BAM_TABLE[j].0 && BAM_TABLE[i].1 != BAM_TABLE[j].1
    ensures forall i :: 0 <= i < |BAM_TABLE| ==> BAM_TABLE[i].0 != "unspecified"
  {}

  lemma {:induction false} FoundAt<R>(table: seq<(string, R)>, i: nat)
    requires forall i, j :: 0 <= i < j < |table| ==> table[i].1 != table[j].1
    requires i < |table|
    ensures FindRegion(table, table[i].1) == table[i].0
  {
    if i == 0 {
    } else {
      FoundAt(table[1..], i - 1);
    }
  }

  /** The unserved zero regions are the only ones without a name. */
  lemma {:induction false} NamedIffSpecified(region: Region)
    ensures RegionName(region) != "unspecified" <==> Specified(region)
  {
    var n := IntoProto(region).number - 1;
    match region
    case HarmonicIn(r) =>
      HarmonicTableDistinct();
      if Specified(region) {
        assert HARMONIC_TABLE[n].1 == r;
        FoundAt(HARMONIC_TABLE, n);
      } else {
        Unlisted(HARMONIC_TABLE, r);
      }
    case BamIn(r) =>
      BamTableDistinct();
      if Specified(region) {
        assert BAM_TABLE[n].1 == r;
        FoundAt(BAM_TABLE, n);
      } else {
        Unlisted(BAM_TABLE, r);
      }
  }

  lemma {:induction false} Unlisted<R>(table: seq<(string, R)>, region: R)
    requires forall i :: 0 <= i < |table| ==> table[i].1 != region
    ensures FindRegion(table, region) == "unspecified"
  {
    if table == [] {
    } else {
      assert table[0].1 != region;
      Unlisted(table[1..], region);
    }
  }

  /** A region name parses to a region of its feed exactly when its lowercase
      form is that region's name in the table. */
  lemma {:induction false} ParseRegionIff(feed: Feed, name: string, region: Region)
    ensures ParseRegion(feed, name) == Ok(region)
            <==> Specified(region) && FeedOf(region) == feed && Lower(name) == RegionName(region)
  {
    hide FindName, FindRegion, Lower;
    NamedIffSpecified(region);
    match region
    case HarmonicIn(r) =>
      HarmonicTableDistinct();
      TableInverse(HARMONIC_TABLE, Lower(name), r);
    case BamIn(r) =>
      BamTableDistinct();
      TableInverse(BAM_TABLE, Lower(name), r);
  }

  /** The first colon stands where it stood before lowercasing. */
  lemma {:induction false} LowerColon(value: string, c: nat)
    requires c < |value|
    ensures var lower := Lower(value);
            lower[..c] == Lower(value[..c]) && lower[c + 1..] == Lower(value[c + 1..])
            && (lower[c] == ':' <==> value[c] == ':')
  {}

  /** A string parses as a region exactly when its lowercase form is what the
      region prints as; the unserved zero regions are never produced. */
  lemma {:induction false} ParseUndoesDisplay(value: string, region: Region)
    ensures ParseSpec(value) == Ok(region) <==> Specified(region) && Lower(value) == Display(region)
  {
    hide Lower, ParseRegion, RegionName;
    var c := IndexOf(value, ':');
    var prefix := FeedName(FeedOf(region));
    var n := |prefix|;
    if ParseSpec(value) == Ok(region) {
      LowerColon(value, c);
      var feed := ParseFeed(value[..c]).value;
      ParseRegionIff(feed, value[c + 1..], region);
      var lower := Lower(value);
      assert lower == lower[..c] + [lower[c]] + lower[c + 1..];
    }
    if Specified(region) && Lower(value) == Display(region) {
      var lower := Lower(value);
      assert lower[n] == ':' && lower[..n] == prefix && lower[n + 1..] == RegionName(region);
      LowerColon(value, n);
      forall k | 0 <= k < n
        ensures value[k] != ':'
      {
        LowerColon(value, k);
        assert lower[k] == prefix[k];
      }
      assert c == n;
      ParseRegionIff(FeedOf(region), value[c + 1..], region);
    }
  }

  /** Every region has its own number on the wire, and only the unserved ones
      have the number the server rejects. */
  lemma {:induction false} NumbersTellRegions(a: Region, b: Region)
    ensures IntoProto(a) == IntoProto(b) <==> a == b
    ensures IntoProto(a).number == 0 <==> !Specified(a)
    ensures IntoProto(a).HarmonicNumber? <==> FeedOf(a) == Harmonic
  {}
  /** The enums of the proto, in the order of their numbers. */
  const HARMONIC_NAMES: seq<string> := ["unspecified", "ams", "ewr", "fra", "lon", "tyo", "sgp", "slc"]

  const BAM_NAMES: seq<string> := [
    "unspecified", "ams", "dfw", "dub", "ewr", "fra", "hkg", "iad",
    "lax", "lon", "pit", "sea", "sin", "slc", "sqq", "tyo"]

  /** Every region is sent as the number the proto gives its name, in the enum
      of its feed. */
  lemma {:induction false} NumberIsNames(region: Region)
    ensures match IntoProto(region)
            case HarmonicNumber(n) =>
              FeedOf(region) == Harmonic && 0 <= n < |HARMONIC_NAMES| && RegionName(region) == HARMONIC_NAMES[n]
            case BamNumber(n) =>
              FeedOf(region) == Bam && 0 <= n < |BAM_NAMES| && RegionName(region) == BAM_NAMES[n]
  {
    hide FindRegion;
    NamedIffSpecified(region);
    var n := IntoProto(region).number - 1;
    if Specified(region) {
      match region
      case HarmonicIn(r) =>
        HarmonicTableDistinct();
        assert HARMONIC_TABLE[n].1 == r && HARMONIC_TABLE[n].0 == HARMONIC_NAMES[n + 1];
        FoundAt(HARMONIC_TABLE, n);
      case BamIn(r) =>
        BamTableDistinct();
        assert BAM_TABLE[n].1 == r && BAM_TABLE[n].0 == BAM_NAMES[n + 1];
        FoundAt(BAM_TABLE, n);
    }
  }

  // ----- letters of either case -----

  const UPPER_CASE: string := "ABCDEFGHIJKLMNOPQRSTUVWXYZ"
  const LOWER_CASE: string := "abcdefghijklmnopqrstuvwxyz"

  /** The character printed, or its upper case. */
  predicate SameLetter(c: char, printed: char) {
    c == printed || exists k :: 0 <= k < 26 && c == UPPER_CASE[k] && printed == LOWER_CASE[k]
  }

  predicate AnyCase(value: string, printed: string) {
    |value| == |printed| && forall i :: 0 <= i < |value| ==> SameLetter(value[i], printed[i])
  }

  /** No upper case letter occurs. */
  predicate Plain(printed: string) {
    forall i :: 0 <= i < |printed| ==> !('A' <= printed[i] <= 'Z')
  }

  lemma {:induction false} LowerCharIff(c: char, printed: char)
    requires !('A' <= printed <= 'Z')
    ensures LowerChar(c) == printed <==> SameLetter(c, printed)
  {
    assert forall k :: 0 <= k < 26 ==> UPPER_CASE[k] == 'A' + k as char && LOWER_CASE[k] == 'a' + k as char;
    if 'A' <= c <= 'Z' {
      var k := (c - 'A') as int;
      assert UPPER_CASE[k] == c;
    }
  }

  lemma {:induction false} LowerIff(value: string, printed: string)
    requires Plain(printed)
    ensures Lower(value) == printed <==> AnyCase(value, printed)
  {
    hide LowerChar, SameLetter;
    if |value| == |printed| {
      forall i | 0 <= i < |value|
        ensures Lower(value)[i] == printed[i] <==> SameLetter(value[i], printed[i])
      {
        LowerCharIff(value[i], printed[i]);
      }
    }
  }

  lemma {:induction false} ListedNamesArePlain()
    ensures forall i :: 0 <= i < |HARMONIC_NAMES| ==> Plain(HARMONIC_NAMES[i])
    ensures forall i :: 0 <= i < |BAM_NAMES| ==> Plain(BAM_NAMES[i])
    ensures Plain("harmonic") && Plain("bam")
  {}

  lemma {:induction false} DisplayIsPlain(region: Region)
    ensures Plain(Display(region))
  {
    hide RegionName, IntoProto;
    NumberIsNames(region);
    ListedNamesArePlain();
  }

  /** The strings that parse as a region are what a served region prints as,
      with any of its letters in upper case. */
  lemma {:induction false} ParsesInAnyCase(value: string, region: Region)
    ensures ParseSpec(value) == Ok(region) <==> Specified(region) && AnyCase(value, Display(region))
  {
    hide ParseSpec, Display, Plain, AnyCase;
    ParseUndoesDisplay(value, region);
    DisplayIsPlain(region);
    LowerIff(value, Display(region));
  }

  /** What is refused is refused for the missing colon, else for the feed as it
      was given, else for the region as it was given. */
  lemma {:induction false} RefusedSpec(name: string, region: string)
    requires ':' !in name
    ensures ParseSpec(name) == Err(Format(name))
    ensures var parsed := ParseSpec(name + ":" + region);
            if AnyCase(name, "harmonic") then parsed.Err? ==> parsed == Err(UnknownRegion(Harmonic, region))
            else if AnyCase(name, "bam") then parsed.Err? ==> parsed == Err(UnknownRegion(Bam, region))
            else parsed == Err(UnknownFeed(name))
  {
    hide Lower, FindName, Plain, AnyCase;
    var value := name + ":" + region;
    assert value[|name|] == ':';
    assert IndexOf(value, ':') == |name|;
    assert value[..|name|] == name && value[|name| + 1..] == region;
    ListedNamesArePlain();
    LowerIff(name, "harmonic");
    LowerIff(name, "bam");
  }
}
