/**
 * The KML 2.2 encoder: an ordered list of locations becomes one `Placemark` per location inside
 * a fixed `kml`/`Document` wrapper. Names and addresses go into CDATA sections verbatim; the
 * coordinates are `longitude,latitude,0`. Turning a JavaScript number into text is the
 * parameter `fmt` (the host's Number-to-String conversion).
 */
module Kml {
  import opened Wrappers
  import opened Text
  import opened Types

  const Header: string :=
    "<?xml version=\"1.0\" encoding=\"UTF-8\"?>\n"
    + "<kml xmlns=\"http://www.opengis.net/kml/2.2\">\n"
    + "  <Document>\n"
    + "    <name>KMLchemy Export</name>\n"
    + "    <description>Places exported from KMLchemy - Transform your searches into powerful KML files</description>\n"

  const Footer: string := "\n  </Document>\n</kml>"

  /**
   * The fixed pieces of the placemark template. The template is
   * NameOpen + name + CdataEnd + AfterName + address + CdataEnd + AfterDescription
   * + coordinates + "<" + AfterCoordinates.
   */
  const NameOpen: string := "    <Placemark>\n      <name><![CDATA["
  const AfterName: string := "</name>\n      <description><![CDATA["
  const AfterDescription: string := "</description>\n      <Point>\n        <coordinates>"
  const AfterCoordinates: string := "/coordinates>\n      </Point>\n    </Placemark>"

  /** The marker that ends a CDATA section (section 2.7 of XML 1.0). */
  const CdataEnd: string := "]]>"

  const KmlMimeType: string := "application/vnd.google-earth.kml+xml"
  const DefaultFilename: string := "kmlchemy_export.kml"

  /**
   * The fixed text of a document and of its placemarks. The encoder's own text is `Source`;
   * the proofs below hold for any template that is `Distinguishable`.
   */
  datatype Template = Template(
    header: string,
    footer: string,
    nameOpen: string,
    afterName: string,
    afterDescription: string,
    afterCoordinates: string)

  const Source: Template := Template(Header, Footer, NameOpen, AfterName, AfterDescription, AfterCoordinates)

  /** `${longitude},${latitude},0`: altitude fixed at 0, no spaces. */
  function CoordinatesText(c: Coordinates, fmt: real -> string): string {
    fmt(c.longitude) + "," + fmt(c.latitude) + ",0"
  }

  function PlacemarkText(loc: Location, fmt: real -> string, t: Template): string {
    t.nameOpen + loc.name + CdataEnd + t.afterName + loc.address + CdataEnd + t.afterDescription
    + CoordinatesText(loc.coordinates, fmt) + "<" + t.afterCoordinates
  }

  /** `locations.map(...)`: one placemark per location, in list order. */
  function Placemarks(locs: seq<Location>, fmt: real -> string, t: Template): (ps: seq<string>)
    ensures |ps| == |locs|
  {
    if locs == [] then [] else [PlacemarkText(locs[0], fmt, t)] + Placemarks(locs[1..], fmt, t)
  }

  function Document(locs: seq<Location>, fmt: real -> string, t: Template): (doc: string)
    ensures StartsWith(doc, t.header) && EndsWith(doc, t.footer)
  {
    t.header + (Join(Placemarks(locs, fmt, t), "\n") + t.footer)
  }

  /** `generateKML`: the fixed wrapper around the placemarks joined by newlines. */
  function GenerateKml(locs: seq<Location>, fmt: real -> string): (doc: string)
    ensures StartsWith(doc, Header) && EndsWith(doc, Footer)
  {
    Document(locs, fmt, Source)
  }

  /** A document ready for download: the file name, the media type and the KML text. */
  datatype KmlFile = KmlFile(filename: string, mimeType: string, content: string)

  /**
   * `downloadKML` up to the browser hand-off: an empty list is refused before anything is
   * generated; otherwise the generated document is what the download carries, under the given
   * file name or, when none is given, under `kmlchemy_export.kml`.
   */
  function DownloadKml(locs: seq<Location>, filename: Option<string>, fmt: real -> string)
    : (r: Result<KmlFile, string>)
    ensures r.Failure? <==> |locs| == 0
    ensures r.Failure? ==> r.error == "No locations to export"
    ensures r.Success? && filename.Some? ==>
      r.value == KmlFile(filename.value, KmlMimeType, GenerateKml(locs, fmt))
    ensures r.Success? && filename.None? ==>
      r.value == KmlFile(DefaultFilename, KmlMimeType, GenerateKml(locs, fmt))
  {
    var name := if filename.Some? then filename.value else DefaultFilename;
    if |locs| == 0 then Failure("No locations to export")
    else Success(KmlFile(name, KmlMimeType, GenerateKml(locs, fmt)))
  }

  // ---------------------------------------------------------------------------------------
  // A reader for the documents GenerateKml writes, used to state what a document contains.
  // ---------------------------------------------------------------------------------------


  /** What a placemark carries: the name and description CDATA contents and the coordinates text. */
  datatype PlacemarkFields = PlacemarkFields(name: string, description: string, coordinates: string)

  function FieldsOf(loc: Location, fmt: real -> string): PlacemarkFields {
    PlacemarkFields(loc.name, loc.address, CoordinatesText(loc.coordinates, fmt))
  }

  function AllFields(locs: seq<Location>, fmt: real -> string): (fs: seq<PlacemarkFields>)
    ensures |fs| == |locs|
  {
    if locs == [] then [] else [FieldsOf(locs[0], fmt)] + AllFields(locs[1..], fmt)
  }

  /**
   * Expects `open` at the start of `s`, then takes the text up to the first `stop`; gives that
   * text and what follows the `stop`.
   */
  function ReadUntil(s: string, open: string, stop: string): (r: Option<(string, string)>)
    ensures r.Some? ==> |open| + |r.value.0| + |stop| + |r.value.1| == |s|
  {
    if !StartsWith(s, open) then None
    else
      var rest := s[|open|..];
      match Find(rest, stop)
      case None => None
      case Some(i) => Some((rest[..i], rest[i + |stop|..]))
  }

  /** Reads one placemark of template `t` from the start of `s`; gives its fields and what follows. */
  function ReadPlacemark(s: string, t: Template): (r: Option<(PlacemarkFields, string)>)
    ensures r.Some? ==> |r.value.1| <= |s|
  {
    match ReadUntil(s, t.nameOpen, CdataEnd)
    case None => None
    case Some((name, s1)) =>
      match ReadUntil(s1, t.afterName, CdataEnd)
      case None => None
      case Some((description, s2)) =>
        match ReadUntil(s2, t.afterDescription, "<")
        case None => None
        case Some((coordinates, s3)) =>
          if StartsWith(s3, t.afterCoordinates)
          then Some((PlacemarkFields(name, description, coordinates), s3[|t.afterCoordinates|..]))
          else None
  }

  /** Reads `"\n" + placemark` repeatedly until exactly the footer is left. */
  function ReadMore(s: string, t: Template): Option<seq<PlacemarkFields>>
    decreases |s|
  {
    if s == t.footer then Some([])
    else if |s| == 0 || s[0] != '\n' then None
    else
      match ReadPlacemark(s[1..], t)
      case None => None
      case Some((f, rest)) =>
        match ReadMore(rest, t)
        case None => None
        case Some(fs) => Some([f] + fs)
  }

  function ReadDocument(doc: string, t: Template): Option<seq<PlacemarkFields>> {
    if !StartsWith(doc, t.header) then None
    else
      var body := doc[|t.header|..];
      if body == t.footer then Some([])
      else
        match ReadPlacemark(body, t)
        case None => None
        case Some((f, rest)) =>
          match ReadMore(rest, t)
          case None => None
          case Some(fs) => Some([f] + fs)
  }

  /** The placemarks of a document in the layout GenerateKml writes, or None if it is not one. */
  function ReadKml(doc: string): Option<seq<PlacemarkFields>> {
    ReadDocument(doc, Source)
  }

  /**
   * A location survives the CDATA embedding when neither its name nor its address contains the
   * CDATA terminator and the coordinates text contains no `<`.
   */
  predicate Embeddable(loc: Location, fmt: real -> string) {
    !Contains(loc.name, CdataEnd) && !Contains(loc.address, CdataEnd)
    && !Contains(CoordinatesText(loc.coordinates, fmt), "<")
  }

  /** A placemark can never be mistaken for the footer. */
  predicate Distinguishable(t: Template) {
    |t.nameOpen| >= 3 && |t.footer| >= 4
    && t.nameOpen[0] != t.footer[0] && t.nameOpen[2] != t.footer[3]
  }

  lemma SourceDistinguishable()
    ensures Distinguishable(Source)
  {
  }

  /** The separator-prefixed parts after the first one: `Join(ps, sep) == ps[0] + Lines(ps[1..], sep)`. */
  function Lines(ps: seq<string>, sep: string): string {
    if ps == [] then "" else sep + ps[0] + Lines(ps[1..], sep)
  }

  lemma {:induction false} JoinAsLines(ps: seq<string>, sep: string)
    requires ps != []
    ensures Join(ps, sep) == ps[0] + Lines(ps[1..], sep)
    decreases |ps|
  {
    if |ps| > 1 {
      JoinAsLines(ps[1..], sep);
      assert ps[1..][1..] == ps[2..];
    }
  }

  lemma {:induction false} ReadUntilOf(open: string, x: string, stop: string, y: string)
    requires |stop| > 0 && stop[|stop| - 1] !in stop[..|stop| - 1]
    requires !Contains(x, stop)
    ensures ReadUntil(open + (x + (stop + y)), open, stop) == Some((x, y))
  {
    var s := open + (x + (stop + y));
    assert StartsWith(s, open) by { assert s[..|open|] == open; }
    assert s[|open|..] == x + stop + y;
    FindAfter(x, stop, y);
    assert (x + stop + y)[..|x|] == x;
    assert (x + stop + y)[|x| + |stop|..] == y;
  }

  lemma Regroup(a: string, b: string, c: string, d: string, e: string, f: string, g: string,
                h: string, i: string, j: string, rest: string)
    ensures a + b + c + d + e + f + g + h + i + j + rest
         == a + (b + (c + (d + (e + (f + (g + (h + (i + (j + rest)))))))))
  {
  }

  lemma PrefixThenRest(p: string, rest: string)
    ensures StartsWith(p + rest, p) && (p + rest)[|p|..] == rest
  {
    assert (p + rest)[..|p|] == p;
  }

  lemma Delimiters()
    ensures |CdataEnd| > 0 && CdataEnd[|CdataEnd| - 1] !in CdataEnd[..|CdataEnd| - 1]
    ensures |"<"| > 0 && "<"[|"<"| - 1] !in "<"[..|"<"| - 1]
  {
  }

  /** One placemark of an embeddable location reads back as that location's fields. */
  lemma ReadPlacemarkOf(loc: Location, fmt: real -> string, t: Template, rest: string)
    requires Embeddable(loc, fmt)
    ensures ReadPlacemark(PlacemarkText(loc, fmt, t) + rest, t) == Some((FieldsOf(loc, fmt), rest))
  {
    var coords := CoordinatesText(loc.coordinates, fmt);
    Regroup(t.nameOpen, loc.name, CdataEnd, t.afterName, loc.address, CdataEnd, t.afterDescription,
            coords, "<", t.afterCoordinates, rest);
    Delimiters();
    var s2 := t.afterDescription + (coords + ("<" + (t.afterCoordinates + rest)));
    var s1 := t.afterName + (loc.address + (CdataEnd + s2));
    ReadUntilOf(t.nameOpen, loc.name, CdataEnd, s1);
    ReadUntilOf(t.afterName, loc.address, CdataEnd, s2);
    ReadUntilOf(t.afterDescription, coords, "<", t.afterCoordinates + rest);
    PrefixThenRest(t.afterCoordinates, rest);
  }

  /** A placemark, bare or after a newline, is never the footer, so the readers do not stop early. */
  lemma PlacemarkNotFooter(loc: Location, fmt: real -> string, t: Template, rest: string)
    requires Distinguishable(t)
    ensures PlacemarkText(loc, fmt, t) + rest != t.footer
    ensures "\n" + (PlacemarkText(loc, fmt, t) + rest) != t.footer
  {
    var s := PlacemarkText(loc, fmt, t) + rest;
    assert s[..|t.nameOpen|] == t.nameOpen;
    assert s[0] == t.nameOpen[0];
    assert ("\n" + s)[3] == t.nameOpen[2];
  }

  /** One step of ReadMore: a newline, a readable placemark, then a readable remainder. */
  lemma ReadMoreStep(t: Template, p: string, rest: string, f: PlacemarkFields, fs: seq<PlacemarkFields>)
    requires "\n" + (p + rest) != t.footer
    requires ReadPlacemark(p + rest, t) == Some((f, rest))
    requires ReadMore(rest, t) == Some(fs)
    ensures ReadMore("\n" + (p + rest), t) == Some([f] + fs)
  {
    assert ("\n" + (p + rest))[1..] == p + rest;
  }

  lemma {:induction false} ReadMoreOf(locs: seq<Location>, fmt: real -> string, t: Template)
    requires Distinguishable(t)
    requires forall i :: 0 <= i < |locs| ==> Embeddable(locs[i], fmt)
    ensures ReadMore(Lines(Placemarks(locs, fmt, t), "\n") + t.footer, t) == Some(AllFields(locs, fmt))
    decreases |locs|
  {
    var ps := Placemarks(locs, fmt, t);
    if locs != [] {
      var p := PlacemarkText(locs[0], fmt, t);
      assert ps[0] == p && ps[1..] == Placemarks(locs[1..], fmt, t);
      var rest := Lines(ps[1..], "\n") + t.footer;
      assert Lines(ps, "\n") + t.footer == "\n" + (p + rest);
      ReadPlacemarkOf(locs[0], fmt, t, rest);
      ReadMoreOf(locs[1..], fmt, t);
      PlacemarkNotFooter(locs[0], fmt, t, rest);
      ReadMoreStep(t, p, rest, FieldsOf(locs[0], fmt), AllFields(locs[1..], fmt));
    }
  }

  /** ReadDocument on a header followed by a readable body. */
  lemma ReadDocumentStep(t: Template, p: string, rest: string, f: PlacemarkFields, fs: seq<PlacemarkFields>)
    requires p + rest != t.footer
    requires ReadPlacemark(p + rest, t) == Some((f, rest))
    requires ReadMore(rest, t) == Some(fs)
    ensures ReadDocument(t.header + (p + rest), t) == Some([f] + fs)
  {
    PrefixThenRest(t.header, p + rest);
  }

  lemma BodyJoin(locs: seq<Location>, fmt: real -> string, t: Template)
    requires locs != []
    ensures Join(Placemarks(locs, fmt, t), "\n") + t.footer
         == PlacemarkText(locs[0], fmt, t) + (Lines(Placemarks(locs[1..], fmt, t), "\n") + t.footer)
  {
    JoinThenFooter(Placemarks(locs, fmt, t), "\n", t.footer);
    PlacemarksHead(locs, fmt, t);
  }

  lemma JoinThenFooter(ps: seq<string>, sep: string, footer: string)
    requires ps != []
    ensures Join(ps, sep) + footer == ps[0] + (Lines(ps[1..], sep) + footer)
  {
    JoinAsLines(ps, sep);
    var a, b := ps[0], Lines(ps[1..], sep);
    assert (a + b) + footer == a + (b + footer);
  }

  lemma PlacemarksHead(locs: seq<Location>, fmt: real -> string, t: Template)
    requires locs != []
    ensures Placemarks(locs, fmt, t)[0] == PlacemarkText(locs[0], fmt, t)
    ensures Placemarks(locs, fmt, t)[1..] == Placemarks(locs[1..], fmt, t)
  {
    var ps := Placemarks(locs, fmt, t);
    assert ps == [PlacemarkText(locs[0], fmt, t)] + Placemarks(locs[1..], fmt, t);
  }

  /** The body of a document with at least one placemark: a readable placemark, then readable lines. */
  lemma BodyPieces(locs: seq<Location>, fmt: real -> string, t: Template) returns (p: string, rest: string)
    requires locs != [] && Distinguishable(t)
    requires forall i :: 0 <= i < |locs| ==> Embeddable(locs[i], fmt)
    ensures Join(Placemarks(locs, fmt, t), "\n") + t.footer == p + rest
    ensures p + rest != t.footer
    ensures ReadPlacemark(p + rest, t) == Some((FieldsOf(locs[0], fmt), rest))
    ensures ReadMore(rest, t) == Some(AllFields(locs[1..], fmt))
  {
    p := PlacemarkText(locs[0], fmt, t);
    rest := Lines(Placemarks(locs[1..], fmt, t), "\n") + t.footer;
    BodyJoin(locs, fmt, t);
    PlacemarkNotFooter(locs[0], fmt, t, rest);
    assert Embeddable(locs[0], fmt);
    ReadPlacemarkOf(locs[0], fmt, t, rest);
    BodyTail(locs, fmt, t);
  }

  lemma BodyTail(locs: seq<Location>, fmt: real -> string, t: Template)
    requires locs != [] && Distinguishable(t)
    requires forall i :: 0 <= i < |locs| ==> Embeddable(locs[i], fmt)
    ensures ReadMore(Lines(Placemarks(locs[1..], fmt, t), "\n") + t.footer, t) == Some(AllFields(locs[1..], fmt))
  {
    var tail := locs[1..];
    assert forall i :: 0 <= i < |tail| ==> Embeddable(tail[i], fmt) by {
      forall i | 0 <= i < |tail| ensures Embeddable(tail[i], fmt) {
        assert tail[i] == locs[i + 1];
      }
    }
    ReadMoreOf(tail, fmt, t);
  }

  /** The body of a document with at least one placemark reads back as its fields. */
  lemma BodyThenRead(locs: seq<Location>, fmt: real -> string, t: Template)
    requires locs != [] && Distinguishable(t)
    requires forall i :: 0 <= i < |locs| ==> Embeddable(locs[i], fmt)
    ensures ReadDocument(t.header + (Join(Placemarks(locs, fmt, t), "\n") + t.footer), t)
         == Some(AllFields(locs, fmt))
  {
    var p, rest := BodyPieces(locs, fmt, t);
    ReadDocumentStep(t, p, rest, FieldsOf(locs[0], fmt), AllFields(locs[1..], fmt));
  }

  lemma EmptyDocumentThenRead(locs: seq<Location>, fmt: real -> string, t: Template)
    requires locs == []
    ensures ReadDocument(Document(locs, fmt, t), t) == Some(AllFields(locs, fmt))
  {
    assert Document(locs, fmt, t) == t.header + t.footer;
    PrefixThenRest(t.header, t.footer);
  }

  lemma DocumentShape(locs: seq<Location>, fmt: real -> string, t: Template)
    ensures Document(locs, fmt, t) == t.header + (Join(Placemarks(locs, fmt, t), "\n") + t.footer)
  {
  }

  lemma OneLocationDocument(loc: Location, fmt: real -> string, t: Template)
    ensures Document([loc], fmt, t) == t.header + (PlacemarkText(loc, fmt, t) + t.footer)
  {
    var p := PlacemarkText(loc, fmt, t);
    assert Placemarks([loc], fmt, t) == [p] by {
      assert [loc][1..] == [];
    }
    DocumentShape([loc], fmt, t);
  }

  lemma FullDocumentThenRead(locs: seq<Location>, fmt: real -> string, t: Template)
    requires locs != [] && Distinguishable(t)
    requires forall i :: 0 <= i < |locs| ==> Embeddable(locs[i], fmt)
    ensures ReadDocument(Document(locs, fmt, t), t) == Some(AllFields(locs, fmt))
  {
    DocumentShape(locs, fmt, t);
    BodyThenRead(locs, fmt, t);
  }

  /** The document reads back as the fields of its locations, in order. */
  lemma DocumentThenRead(locs: seq<Location>, fmt: real -> string, t: Template)
    requires Distinguishable(t)
    requires forall i :: 0 <= i < |locs| ==> Embeddable(locs[i], fmt)
    ensures ReadDocument(Document(locs, fmt, t), t) == Some(AllFields(locs, fmt))
  {
    if locs == [] {
      EmptyDocumentThenRead(locs, fmt, t);
    } else {
      FullDocumentThenRead(locs, fmt, t);
    }
  }

  /**
   * Round trip: when no name or address contains `]]>` and no number prints with `<`, the
   * generated document holds exactly one placemark per location, in list order, with the
   * location's name, address and `longitude,latitude,0`.
   */
  lemma GenerateThenRead(locs: seq<Location>, fmt: real -> string)
    requires forall i :: 0 <= i < |locs| ==> Embeddable(locs[i], fmt)
    ensures ReadKml(GenerateKml(locs, fmt)) == Some(AllFields(locs, fmt))
  {
    SourceDistinguishable();
    DocumentThenRead(locs, fmt, Source);
  }

  /** With no locations the document is the bare wrapper; the emptiness check lives in DownloadKml. */
  lemma EmptyDocument(fmt: real -> string)
    ensures GenerateKml([], fmt) == Header + Footer
    ensures ReadKml(GenerateKml([], fmt)) == Some([])
  {
    EmptyDocumentThenRead([], fmt, Source);
  }

  /**
   * Ids are not written: two lists that agree on names, addresses and coordinates give the same
   * document.
   */
  lemma {:induction false} PlacemarksIgnoreIds(a: seq<Location>, b: seq<Location>, fmt: real -> string, t: Template)
    requires |a| == |b|
    requires forall i :: 0 <= i < |a| ==>
      a[i].name == b[i].name && a[i].address == b[i].address && a[i].coordinates == b[i].coordinates
    ensures Placemarks(a, fmt, t) == Placemarks(b, fmt, t)
    decreases |a|
  {
    if a != [] {
      PlacemarksIgnoreIds(a[1..], b[1..], fmt, t);
      assert PlacemarkText(a[0], fmt, t) == PlacemarkText(b[0], fmt, t);
    }
  }

  lemma IdsIgnored(a: seq<Location>, b: seq<Location>, fmt: real -> string)
    requires |a| == |b|
    requires forall i :: 0 <= i < |a| ==>
      a[i].name == b[i].name && a[i].address == b[i].address && a[i].coordinates == b[i].coordinates
    ensures GenerateKml(a, fmt) == GenerateKml(b, fmt)
  {
    PlacemarksIgnoreIds(a, b, fmt, Source);
  }

  /** When `x` holds the stop marker, ReadUntil stops inside `x` and gives back less than `x`. */
  lemma ReadUntilStopsEarly(open: string, x: string, stop: string, y: string)
    requires |stop| > 0 && Contains(x, stop)
    ensures ReadUntil(open + (x + y), open, stop).Some?
    ensures |ReadUntil(open + (x + y), open, stop).value.0| < |x|
  {
    var s := open + (x + y);
    PrefixThenRest(open, x + y);
    var j := Find(x, stop).value;
    assert (x + y)[j..j + |stop|] == x[j..j + |stop|];
    assert OccursAt(x + y, stop, j);
  }

  /** A name holding `]]>` closes its CDATA section early, so the placemark reads back another name. */
  lemma CdataEndInNameMisread(loc: Location, fmt: real -> string, t: Template, rest: string)
    requires Contains(loc.name, CdataEnd)
    ensures var r := ReadPlacemark(PlacemarkText(loc, fmt, t) + rest, t);
      r.None? || r.value.0.name != loc.name
  {
    var coords := CoordinatesText(loc.coordinates, fmt);
    Regroup(t.nameOpen, loc.name, CdataEnd, t.afterName, loc.address, CdataEnd, t.afterDescription,
            coords, "<", t.afterCoordinates, rest);
    var y := CdataEnd + (t.afterName + (loc.address + (CdataEnd + (t.afterDescription
             + (coords + ("<" + (t.afterCoordinates + rest)))))));
    ReadUntilStopsEarly(t.nameOpen, loc.name, CdataEnd, y);
  }

  /** Whatever ReadDocument gives for a body that is not the bare footer starts with the body's first placemark. */
  lemma ReadDocumentFirst(t: Template, body: string)
    requires body != t.footer
    ensures var r := ReadDocument(t.header + body, t);
      r.Some? ==> ReadPlacemark(body, t).Some? && r.value != [] && r.value[0] == ReadPlacemark(body, t).value.0
  {
    PrefixThenRest(t.header, body);
  }

  lemma CdataEndInNameMisreadDocument(loc: Location, fmt: real -> string, t: Template)
    requires Distinguishable(t) && Contains(loc.name, CdataEnd)
    ensures ReadDocument(t.header + (PlacemarkText(loc, fmt, t) + t.footer), t) != Some([FieldsOf(loc, fmt)])
  {
    PlacemarkNotFooter(loc, fmt, t, t.footer);
    CdataEndInNameMisread(loc, fmt, t, t.footer);
    ReadDocumentFirst(t, PlacemarkText(loc, fmt, t) + t.footer);
  }

  /**
   * Names are embedded without escaping: a one-location document whose name holds `]]>` does not
   * read back as that location.
   */
  lemma CdataEndInNameBreaksDocument(loc: Location, fmt: real -> string)
    requires Contains(loc.name, CdataEnd)
    ensures ReadKml(GenerateKml([loc], fmt)) != Some([FieldsOf(loc, fmt)])
  {
    OneLocationDocument(loc, fmt, Source);
    SourceDistinguishable();
    CdataEndInNameMisreadDocument(loc, fmt, Source);
  }
}
