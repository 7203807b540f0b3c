/**
 * The bulk importer: pasted text becomes a list of distinct addresses, one per useful line, and
 * each address is geocoded in turn while a results list of fixed length shows which have
 * settled. The geocoder's answers are a parameter (`lookup`), and so are the generated ids
 * (`freshId`, indexed by the address position).
 */
module BulkImport {
  import opened Wrappers
  import opened Text
  import opened Types
  import opened Mapbox

  /** The separator of the `"name","address"` form. */
  const CsvSeparator: string := "\",\""

  /**
   * The second field of `split('","')`: the text after the first separator, up to the next
   * separator found after it (or the end).
   */
  function SecondField(t: string): (f: string)
    requires Contains(t, CsvSeparator)
    ensures |f| <= |t|
  {
    var i := Find(t, CsvSeparator).value;
    var after := t[i + |CsvSeparator|..];
    match Find(after, CsvSeparator)
    case Some(j) => after[..j]
    case None => after
  }

  /** `slice(1, -1)`: without the first and last character; empty when fewer than two. */
  function Inner(t: string): (r: string)
    ensures |t| >= 2 ==> r == t[1..|t| - 1]
    ensures |t| < 2 ==> r == []
  {
    if |t| >= 2 then t[1..|t| - 1] else []
  }

  /** A trimmed, non-empty value, or nothing when the value is blank. */
  function NonBlank(s: string): (r: Option<string>)
    ensures r.Some? <==> Trim(s) != []
    ensures r.Some? ==> r.value == Trim(s)
  {
    if Trim(s) == [] then None else Some(Trim(s))
  }

  /**
   * What one line contributes: nothing for a blank line; with a `","` in it, the second field
   * stripped of every `"` and trimmed; when wrapped in `"`, its trimmed interior; otherwise the
   * trimmed line itself. In the first two cases a blank value contributes nothing.
   */
  function ParseLine(line: string): (r: Option<string>)
    ensures AllWhitespace(line) ==> r.None?
    ensures r.Some? ==> r.value != [] && Trim(r.value) == r.value
  {
    var t := Trim(line);
    if t == [] then None
    else
      TrimIdempotent(line);
      if Contains(t, CsvSeparator) then
        TrimIdempotent(RemoveAll(SecondField(t), '"'));
        NonBlank(RemoveAll(SecondField(t), '"'))
      else if StartsWith(t, "\"") && EndsWith(t, "\"") then
        TrimIdempotent(Inner(t));
        NonBlank(Inner(t))
      else Some(t)
  }

  function OptionToSeq(o: Option<string>): (r: seq<string>)
    ensures |r| <= 1 && (r == [] <==> o.None?)
    ensures o.Some? ==> r == [o.value]
  {
    if o.Some? then [o.value] else []
  }

  /** The values the lines contribute, in line order, repeats included. */
  function Collect(lines: seq<string>): (r: seq<string>)
    ensures forall i :: 0 <= i < |r| ==> r[i] != [] && Trim(r[i]) == r[i]
  {
    if lines == [] then []
    else
      var tail := OptionToSeq(ParseLine(lines[|lines| - 1]));
      assert forall i :: 0 <= i < |tail| ==> tail[i] != [] && Trim(tail[i]) == tail[i];
      Collect(lines[..|lines| - 1]) + tail
  }

  /** `Array.from(new Set(s))`: each value once, at its first occurrence. */
  function Dedup(s: seq<string>): (r: seq<string>)
    ensures forall x :: x in r <==> x in s
    ensures forall i, j :: 0 <= i < j < |r| ==> r[i] != r[j]
  {
    if s == [] then []
    else
      var d := Dedup(s[..|s| - 1]);
      assert s == s[..|s| - 1] + [s[|s| - 1]];
      if s[|s| - 1] in d then d else d + [s[|s| - 1]]
  }

  lemma ParseLineCsv(line: string)
    requires Trim(line) != [] && Contains(Trim(line), CsvSeparator)
    ensures ParseLine(line) == NonBlank(RemoveAll(SecondField(Trim(line)), '"'))
  {
  }

  lemma ParseLineQuoted(line: string)
    requires Trim(line) != [] && !Contains(Trim(line), CsvSeparator)
    requires StartsWith(Trim(line), "\"") && EndsWith(Trim(line), "\"")
    ensures ParseLine(line) == NonBlank(Inner(Trim(line)))
  {
  }

  lemma ParseLineBare(line: string)
    requires Trim(line) != [] && !Contains(Trim(line), CsvSeparator)
    requires !(StartsWith(Trim(line), "\"") && EndsWith(Trim(line), "\""))
    ensures ParseLine(line) == Some(Trim(line))
  {
  }

  lemma CollectStep(lines: seq<string>, k: nat)
    requires k < |lines|
    ensures Collect(lines[..k + 1]) == Collect(lines[..k]) + OptionToSeq(ParseLine(lines[k]))
  {
    assert lines[..k + 1][..k] == lines[..k];
  }

  /** The addresses `parseAddresses` returns for `text`. */
  function ParsedAddresses(text: string): (r: seq<string>)
    ensures AllWhitespace(text) ==> r == []
  {
    if Trim(text) == [] then [] else Dedup(Collect(Split(text, '\n')))
  }

  /** The line loop of `parseAddresses`, with its `continue` branches. */
  method CollectAddresses(lines: seq<string>) returns (collected: seq<string>)
    ensures collected == Collect(lines)
  {
    collected := [];
    for k := 0 to |lines|
      invariant collected == Collect(lines[..k])
    {
      CollectStep(lines, k);
      var trimmedLine := Trim(lines[k]);
      if trimmedLine == [] {
        continue;
      }
      if Contains(trimmedLine, CsvSeparator) {
        var address := Trim(RemoveAll(SecondField(trimmedLine), '"'));
        ParseLineCsv(lines[k]);
        if address != [] {
          collected := collected + [address];
        }
        continue;
      }
      if StartsWith(trimmedLine, "\"") && EndsWith(trimmedLine, "\"") {
        var address := Trim(Inner(trimmedLine));
        ParseLineQuoted(lines[k]);
        if address != [] {
          collected := collected + [address];
        }
        continue;
      }
      ParseLineBare(lines[k]);
      collected := collected + [trimmedLine];
    }
    assert lines[..|lines|] == lines;
  }

  /** `Array.from(new Set(values))`: a set of the values seen so far decides what is kept. */
  method RemoveDuplicates(values: seq<string>) returns (unique: seq<string>)
    ensures unique == Dedup(values)
  {
    unique := [];
    var seen: set<string> := {};
    for k := 0 to |values|
      invariant unique == Dedup(values[..k])
      invariant forall x :: x in seen <==> x in unique
    {
      assert values[..k + 1][..k] == values[..k];
      if values[k] !in seen {
        seen := seen + {values[k]};
        unique := unique + [values[k]];
      }
    }
    assert values[..|values|] == values;
  }

  /** `parseAddresses`. */
  method ParseAddresses(text: string) returns (addresses: seq<string>)
    ensures addresses == ParsedAddresses(text)
  {
    if Trim(text) == [] {
      return [];
    }
    var lines := Split(text, '\n');
    var collected := CollectAddresses(lines);
    addresses := RemoveDuplicates(collected);
  }

  /** Every parsed address is non-empty, already trimmed, and appears once. */
  lemma ParsedAddressesClean(text: string)
    ensures var r := ParsedAddresses(text);
      (forall i :: 0 <= i < |r| ==> r[i] != [] && Trim(r[i]) == r[i])
      && (forall i, j :: 0 <= i < j < |r| ==> r[i] != r[j])
  {
    var r := ParsedAddresses(text);
    if Trim(text) != [] {
      var c := Collect(Split(text, '\n'));
      forall i | 0 <= i < |r| ensures r[i] != [] && Trim(r[i]) == r[i] {
        assert r[i] in c;
      }
    }
  }

  /** The index of the first `x` in `s`. */
  function FirstIndex(s: seq<string>, x: string): (k: nat)
    requires x in s
    ensures k < |s| && s[k] == x && x !in s[..k]
  {
    if s[0] == x then 0 else 1 + FirstIndex(s[1..], x)
  }

  lemma {:induction false} FirstIndexUnique(s: seq<string>, x: string, k: nat)
    requires k < |s| && s[k] == x && x !in s[..k]
    ensures FirstIndex(s, x) == k
  {
    if k > 0 {
      assert s[..k][0] == s[0];
      assert s[1..][..k - 1] == s[..k][1..];
      FirstIndexUnique(s[1..], x, k - 1);
    }
  }

  /** Appending never moves an existing first occurrence. */
  lemma FirstIndexAppend(s: seq<string>, y: string, x: string)
    requires x in s
    ensures FirstIndex(s + [y], x) == FirstIndex(s, x)
  {
    var k := FirstIndex(s, x);
    assert (s + [y])[..k] == s[..k];
    FirstIndexUnique(s + [y], x, k);
  }

  /** Duplicate removal keeps the order of first occurrences. */
  lemma {:induction false} DedupKeepsFirstOccurrenceOrder(s: seq<string>)
    ensures forall i, j :: 0 <= i < j < |Dedup(s)| ==> FirstIndex(s, Dedup(s)[i]) < FirstIndex(s, Dedup(s)[j])
    decreases |s|
  {
    if s != [] {
      var p := s[..|s| - 1];
      var y := s[|s| - 1];
      assert s == p + [y];
      DedupKeepsFirstOccurrenceOrder(p);
      var d := Dedup(p);
      var r := Dedup(s);
      assert r == if y in d then d else d + [y];
      forall i, j | 0 <= i < j < |r| ensures FirstIndex(s, r[i]) < FirstIndex(s, r[j]) {
        assert i < |d| && r[i] == d[i];
        FirstIndexAppend(p, y, r[i]);
        if j < |d| {
          assert r[j] == d[j];
          FirstIndexAppend(p, y, r[j]);
          assert FirstIndex(p, d[i]) < FirstIndex(p, d[j]);
        } else {
          assert r[j] == y && y !in p;
          assert s[..|p|] == p;
          FirstIndexUnique(s, y, |p|);
        }
      }
    }
  }

  /** No separator starts at `j` when one of its three characters is missing there. */
  lemma NoSeparatorAt(t: string, j: nat)
    requires j + 3 > |t| || t[j] != '"' || t[j + 1] != ',' || t[j + 2] != '"'
    ensures !OccursAt(t, CsvSeparator, j)
  {
    if j + 3 <= |t| {
      assert t[j..j + 3][0] == t[j] && t[j..j + 3][1] == t[j + 1] && t[j..j + 3][2] == t[j + 2];
    }
  }

  /** A one-character string other than `","`'s middle character. */
  lemma NotLoneComma(s: string)
    requires |s| == 1 && s != ","
    ensures s[0] != ','
  {
    assert s == [s[0]];
  }

  /** The first separator of a line `"name","…` is the one after the name, whatever follows it. */
  lemma CsvFirstSeparator(name: string, tail: string)
    requires '"' !in name && name != ","
    ensures Find("\"" + name + CsvSeparator + tail, CsvSeparator) == Some(|name| + 1)
  {
    var t := "\"" + name + CsvSeparator + tail;
    var n := |name|;
    assert t[n + 1..n + 4] == CsvSeparator;
    assert OccursAt(t, CsvSeparator, n + 1);
    forall j: nat | j < n + 1 ensures !OccursAt(t, CsvSeparator, j) {
      if j > 0 {
        assert t[j] == name[j - 1];
      } else if n >= 2 {
        assert t[2] == name[1];
      } else if n == 1 {
        NotLoneComma(name);
        assert t[1] == name[0];
      } else {
        assert t[1] == '"';
      }
      NoSeparatorAt(t, j);
    }
  }

  /** ... and its second field is the address with the closing quote. */
  lemma CsvSecondField(name: string, address: string)
    requires '"' !in name && name != "," && '"' !in address
    ensures Contains("\"" + name + CsvSeparator + address + "\"", CsvSeparator)
    ensures SecondField("\"" + name + CsvSeparator + address + "\"") == address + "\""
  {
    var t := "\"" + name + CsvSeparator + address + "\"";
    assert t == "\"" + name + CsvSeparator + (address + "\"");
    CsvFirstSeparator(name, address + "\"");
    var after := t[|name| + 4..];
    assert after == address + "\"";
    forall j: nat ensures !OccursAt(after, CsvSeparator, j) {
      if j + 3 <= |after| {
        assert after[j] == address[j];
      }
      NoSeparatorAt(after, j);
    }
    assert Find(after, CsvSeparator).None?;
  }

  /** A trimmed line whose second field is a clean value followed by `"` gives that value. */
  lemma CsvParse(line: string, field: string)
    requires line != [] && Trim(line) == line && Contains(line, CsvSeparator)
    requires SecondField(line) == field + "\""
    requires '"' !in field && field != [] && Trim(field) == field
    ensures ParseLine(line) == Some(field)
  {
    ParseLineCsv(line);
    RemoveQuoteAfter(field);
  }

  /** With a third field, the second field is the text between the first two separators. */
  lemma CsvSecondOfThree(name: string, address: string, rest: string)
    requires '"' !in name && name != "," && '"' !in address
    ensures Contains("\"" + name + CsvSeparator + address + CsvSeparator + rest, CsvSeparator)
    ensures SecondField("\"" + name + CsvSeparator + address + CsvSeparator + rest) == address
  {
    var t := "\"" + name + CsvSeparator + address + CsvSeparator + rest;
    assert t == "\"" + name + CsvSeparator + (address + CsvSeparator + rest);
    CsvFirstSeparator(name, address + CsvSeparator + rest);
    var after := t[|name| + 4..];
    assert after == address + CsvSeparator + rest;
    assert OccursAt(after, CsvSeparator, |address|) by {
      assert after[|address|..|address| + 3] == CsvSeparator;
    }
    forall j: nat | j < |address| ensures !OccursAt(after, CsvSeparator, j) {
      assert after[j] == address[j];
      NoSeparatorAt(after, j);
    }
    assert Find(after, CsvSeparator) == Some(|address|);
  }

  /** Removing a character that does not occur changes nothing. */
  lemma {:induction false} RemoveAbsent(s: string, c: char)
    requires c !in s
    ensures RemoveAll(s, c) == s
    decreases |s|
  {
    if s != [] {
      assert s == [s[0]] + s[1..];
      RemoveAbsent(s[1..], c);
    }
  }

  /**
   * A line `"name","address","…` gives its address, trimmed, whatever the later fields hold:
   * only the second field of the split is read.
   */
  lemma CsvLaterFieldsIgnored(name: string, address: string, rest: string)
    requires '"' !in name && name != "," && '"' !in address
    ensures ParseLine("\"" + name + CsvSeparator + address + CsvSeparator + rest + "\"") == NonBlank(address)
  {
    var t := "\"" + name + CsvSeparator + address + CsvSeparator + rest + "\"";
    var u := "\"" + name + CsvSeparator + address + CsvSeparator + (rest + "\"");
    assert t == u;
    assert t[0] == '"' && t[|t| - 1] == '"';
    TrimTrimmed(t);
    CsvSecondOfThree(name, address, rest + "\"");
    ParseLineCsv(t);
    RemoveAbsent(address, '"');
  }

  /**
   * A `"name","address"` line gives its address, when neither part holds a `"`, the name is not a
   * lone comma, and the address is non-empty and starts and ends with a non-space.
   */
  lemma CsvLineGivesAddress(name: string, address: string)
    requires '"' !in name && name != ","
    requires '"' !in address && address != []
    requires !IsJsWhitespace(address[0]) && !IsJsWhitespace(address[|address| - 1])
    ensures ParseLine("\"" + name + CsvSeparator + address + "\"") == Some(address)
  {
    var t := "\"" + name + CsvSeparator + address + "\"";
    assert t[0] == '"' && t[|t| - 1] == '"';
    TrimTrimmed(t);
    TrimTrimmed(address);
    CsvSecondField(name, address);
    CsvParse(t, address);
  }

  lemma {:induction false} RemoveQuoteAfter(s: string)
    requires '"' !in s
    ensures RemoveAll(s + "\"", '"') == s
    decreases |s|
  {
    if s != [] {
      assert (s + "\"")[1..] == s[1..] + "\"";
      RemoveQuoteAfter(s[1..]);
    } else {
      assert s + "\"" == "\"";
    }
  }

  /** A line written `"name", "address"` holds no `","`. */
  lemma SpacedLineHasNoSeparator(name: string, address: string)
    requires '"' !in name && name != "," && '"' !in address && address != ","
    requires name != [] && address != []
    ensures !Contains("\"" + (name + "\", \"" + address) + "\"", CsvSeparator)
  {
    var t := "\"" + (name + "\", \"" + address) + "\"";
    var n := |name|;
    forall j: nat ensures !OccursAt(t, CsvSeparator, j) {
      if j + 3 <= |t| {
        if j == 0 {
          if n >= 2 {
            assert t[2] == name[1];
          } else {
            NotLoneComma(name);
            assert t[1] == name[0];
          }
        } else if j <= n {
          assert t[j] == name[j - 1];
        } else if j == n + 1 {
          assert t[j + 2] == ' ';
        } else if j == n + 2 {
          assert t[j] == ',';
        } else if j == n + 3 {
          assert t[j] == ' ';
        } else if j == n + 4 {
          if |address| >= 2 {
            assert t[j + 2] == address[1];
          } else {
            NotLoneComma(address);
            assert t[j + 1] == address[0];
          }
        } else {
          assert t[j] == address[j - n - 5];
        }
      }
      NoSeparatorAt(t, j);
    }
  }

  /** A trimmed line wrapped in quotes, without `","`, whose interior is clean gives the interior. */
  lemma QuotedParse(t: string)
    requires t != [] && Trim(t) == t && !Contains(t, CsvSeparator)
    requires StartsWith(t, "\"") && EndsWith(t, "\"")
    requires Inner(t) != [] && Trim(Inner(t)) == Inner(t)
    ensures ParseLine(t) == Some(Inner(t))
  {
    ParseLineQuoted(t);
  }

  /** The interior of a value wrapped in quotes is the value... */
  lemma WrappedInner(v: string)
    ensures Inner("\"" + v + "\"") == v
  {
    var t := "\"" + v + "\"";
    assert t[1..|t| - 1] == v;
  }

  /** ... the wrapped value starts and ends with a quote... */
  lemma WrappedEnds(v: string)
    ensures StartsWith("\"" + v + "\"", "\"") && EndsWith("\"" + v + "\"", "\"")
  {
    var t := "\"" + v + "\"";
    assert t[..1] == "\"" && t[|t| - 1..] == "\"";
  }

  /** ... and it is already trimmed. */
  lemma WrappedTrimmed(v: string)
    ensures Trim("\"" + v + "\"") == "\"" + v + "\""
  {
    var t := "\"" + v + "\"";
    assert t[0] == '"' && t[|t| - 1] == '"';
    TrimTrimmed(t);
  }

  /**
   * With a space after the comma, `"name", "address"` is not the `","` form: the line is treated
   * as one quoted value and gives back `name", "address`, quotes and all.
   */
  lemma SpacedCsvLineGivesWholeLine(name: string, address: string)
    requires '"' !in name && name != "," && '"' !in address && address != ","
    requires name != [] && !IsJsWhitespace(name[0])
    requires address != [] && !IsJsWhitespace(address[|address| - 1])
    ensures ParseLine("\"" + name + "\", \"" + address + "\"") == Some(name + "\", \"" + address)
  {
    var v := name + "\", \"" + address;
    assert "\"" + name + "\", \"" + address + "\"" == "\"" + v + "\"";
    assert v[0] == name[0] && v[|v| - 1] == address[|address| - 1];
    TrimTrimmed(v);
    SpacedLineHasNoSeparator(name, address);
    WrappedInner(v);
    WrappedEnds(v);
    WrappedTrimmed(v);
    QuotedParse("\"" + v + "\"");
  }

  /** A line with no `","` and not wrapped in quotes is taken as it is, trimmed. */
  lemma BareLineIsTrimmed(line: string)
    requires Trim(line) != [] && !Contains(Trim(line), CsvSeparator) && !StartsWith(Trim(line), "\"")
    ensures ParseLine(line) == Some(Trim(line))
  {
  }

  /** The name and address of the sample line `"Starbucks","123 Main St, Philadelphia, PA"`. */
  const SampleName: string := "Starbucks"
  const SampleAddress: string := "123 Main St, Philadelphia, PA"

  /** The spaced form of the sample line gives the quoted text between its outer quotes. */
  lemma SpacedSampleLine()
    ensures ParseLine("\"" + SampleName + "\", \"" + SampleAddress + "\"")
         == Some(SampleName + "\", \"" + SampleAddress)
  {
    assert SampleName[0] == 'S' && SampleAddress[|SampleAddress| - 1] == 'A';
    SpacedCsvLineGivesWholeLine(SampleName, SampleAddress);
  }

  /** The unspaced sample line gives its address. */
  lemma CsvSampleLine()
    ensures ParseLine("\"" + SampleName + CsvSeparator + SampleAddress + "\"") == Some(SampleAddress)
  {
    assert SampleAddress[0] == '1' && SampleAddress[|SampleAddress| - 1] == 'A';
    CsvLineGivesAddress(SampleName, SampleAddress);
  }

  // ---------------------------------------------------------------------------------------
  // The import loop
  // ---------------------------------------------------------------------------------------

  /** `'pending' | 'success' | 'error'`. */
  datatype ImportStatus = Pending | Succeeded | Failed

  datatype ImportResult = ImportResult(
    original: string,
    location: Option<Location>,
    error: Option<string>,
    status: ImportStatus)

  /** The message every failed address is shown. */
  const NoResults: string := "No results found"

  /**
   * `geocodeAddress`: the first feature of a successful search, as a location with the given id;
   * nothing without a token, on any search failure, or when no feature came back.
   */
  function GeocodeAddress(address: string, token: string, replies: (HttpReply, HttpReply), id: string)
    : (r: Option<Location>)
    ensures r.Some? ==> token != [] && SearchPlaces(address, token, replies.0, replies.1).Success?
    ensures r.Some? <==> token != [] && SearchPlaces(address, token, replies.0, replies.1).Success?
                         && SearchPlaces(address, token, replies.0, replies.1).value.features != []
    ensures r.Some? ==>
      r.value == FeatureLocation(SearchPlaces(address, token, replies.0, replies.1).value.features[0], id)
  {
    if token == [] then None
    else
      match SearchPlaces(address, token, replies.0, replies.1)
      case Failure(_) => None
      case Success(response) =>
        if |response.features| > 0 then Some(FeatureLocation(response.features[0], id)) else None
  }

  /**
   * A geocoded location is built from a feature of the narrow answer or from a non-POI feature of
   * the broad answer, and carries the id it was given.
   */
  lemma GeocodedFromAnswers(address: string, token: string, replies: (HttpReply, HttpReply), id: string)
    requires GeocodeAddress(address, token, replies, id).Some?
    ensures var loc := GeocodeAddress(address, token, replies, id).value;
      loc.id == id
      && exists f :: loc == FeatureLocation(f, id)
           && (f in replies.0.body.features || (replies.1.Reply? && f in replies.1.body.features && !IsPoi(f)))
  {
    var narrow := replies.0;
    var broad := replies.1;
    var response := SearchPlaces(address, token, narrow, broad).value;
    var f := response.features[0];
    var merged := Merge(narrow.body.features, broad);
    assert f in multiset(merged);
    assert f in merged;
    if merged != narrow.body.features {
      MergedFrom(narrow.body.features, broad, f);
    }
  }

  /** How one address settles: success with the location, or the fixed error. */
  function Outcome(address: string, location: Option<Location>): (r: ImportResult)
    ensures r.original == address && r.location == location
    ensures r.status == Succeeded <==> location.Some?
    ensures r.status == Failed <==> location.None?
    ensures r.status == Failed ==> r.error == Some(NoResults)
  {
    if location.Some? then ImportResult(address, location, None, Succeeded)
    else ImportResult(address, None, Some(NoResults), Failed)
  }

  /** The settled results of the first `n` addresses. */
  function Outcomes(addresses: seq<string>, token: string, lookup: string -> (HttpReply, HttpReply),
                    freshId: nat -> string, n: nat): (r: seq<ImportResult>)
    requires n <= |addresses|
    ensures |r| == n
    ensures forall j :: 0 <= j < n ==>
      r[j] == Outcome(addresses[j], GeocodeAddress(addresses[j], token, lookup(addresses[j]), freshId(j)))
  {
    if n == 0 then []
    else
      Outcomes(addresses, token, lookup, freshId, n - 1)
      + [Outcome(addresses[n - 1], GeocodeAddress(addresses[n - 1], token, lookup(addresses[n - 1]), freshId(n - 1)))]
  }

  /** The pending entry of every address. */
  function PendingResults(addresses: seq<string>): (r: seq<ImportResult>)
    ensures |r| == |addresses|
    ensures forall j :: 0 <= j < |r| ==> r[j] == ImportResult(addresses[j], None, None, Pending)
  {
    if addresses == [] then []
    else [ImportResult(addresses[0], None, None, Pending)] + PendingResults(addresses[1..])
  }

  /** The locations of the successful results, in result order. */
  function Successes(rs: seq<ImportResult>): (locs: seq<Location>)
    ensures |locs| <= |rs|
    ensures forall l :: l in locs ==> exists j :: 0 <= j < |rs| && rs[j].location == Some(l)
  {
    if rs == [] then []
    else
      var rest := Successes(rs[..|rs| - 1]);
      var r := rest + (if rs[|rs| - 1].location.Some? then [rs[|rs| - 1].location.value] else []);
      assert forall l :: l in rest ==> exists j :: 0 <= j < |rs| && rs[j].location == Some(l) by {
        forall l | l in rest ensures exists j :: 0 <= j < |rs| && rs[j].location == Some(l) {
          var j :| 0 <= j < |rs| - 1 && rs[..|rs| - 1][j].location == Some(l);
          assert rs[j].location == Some(l);
        }
      }
      r
  }

  /** The successes of a concatenation are the successes of each part, in order. */
  lemma {:induction false} SuccessesAppend(a: seq<ImportResult>, b: seq<ImportResult>)
    ensures Successes(a + b) == Successes(a) + Successes(b)
    decreases |b|
  {
    if b == [] {
      assert a + b == a;
    } else {
      var b' := b[..|b| - 1];
      assert (a + b)[..|a + b| - 1] == a + b';
      assert (a + b)[|a + b| - 1] == b[|b| - 1];
      SuccessesAppend(a, b');
    }
  }

  /** A successful result is forwarded exactly when its location is present. */
  lemma SuccessesOfOne(r: ImportResult)
    ensures Successes([r]) == if r.location.Some? then [r.location.value] else []
  {
    assert [r][..0] == [];
  }

  /**
   * The shape of the results list while the loop runs: one entry per address, each with its
   * address as `original`; the first `i` settled (success or error), the rest pending.
   */
  lemma SnapshotShape(addresses: seq<string>, token: string, lookup: string -> (HttpReply, HttpReply),
                      freshId: nat -> string, i: nat)
    requires i <= |addresses|
    ensures var snap := Outcomes(addresses, token, lookup, freshId, i) + PendingResults(addresses)[i..];
      |snap| == |addresses|
      && (forall j :: 0 <= j < |snap| ==> snap[j].original == addresses[j])
      && (forall j :: 0 <= j < |snap| ==> (snap[j].status == Pending <==> j >= i))
  {
    var snap := Outcomes(addresses, token, lookup, freshId, i) + PendingResults(addresses)[i..];
    forall j | 0 <= j < |snap|
      ensures snap[j].original == addresses[j] && (snap[j].status == Pending <==> j >= i)
    {
      if j >= i {
        assert snap[j] == PendingResults(addresses)[j];
      }
    }
  }

  /** The state of the bulk import panel. */
  class BulkImportPanel {
    var inputText: string
    var isProcessing: bool
    var results: seq<ImportResult>
    var showResults: bool

    constructor()
      ensures inputText == [] && !isProcessing && results == [] && !showResults
    {
      inputText := [];
      isProcessing := false;
      results := [];
      showResults := false;
    }

    /** The text area's change handler. */
    method SetInputText(text: string)
      modifies this
      ensures inputText == text
      ensures isProcessing == old(isProcessing) && results == old(results) && showResults == old(showResults)
    {
      inputText := text;
    }

    /**
     * `handleBulkImport`. Returns what `onLocationsAdd` is called with, if it is called: the
     * successful locations, in address order, and only when there is at least one.
     */
    method HandleBulkImport(token: string, lookup: string -> (HttpReply, HttpReply), freshId: nat -> string)
      returns (forwarded: Option<seq<Location>>)
      modifies this
      ensures inputText == old(inputText)
      ensures Trim(old(inputText)) == [] || token == [] || ParsedAddresses(old(inputText)) == [] ==>
        forwarded.None? && isProcessing == old(isProcessing) && results == old(results)
        && showResults == old(showResults)
      ensures Trim(old(inputText)) != [] && token != [] && ParsedAddresses(old(inputText)) != [] ==>
        results == Outcomes(ParsedAddresses(old(inputText)), token, lookup, freshId, |ParsedAddresses(old(inputText))|)
        && !isProcessing && showResults
        && forwarded == (if |Successes(results)| > 0 then Some(Successes(results)) else None)
    {
      if Trim(inputText) == [] || token == [] {
        return None;
      }
      var addresses := ParseAddresses(inputText);
      if |addresses| == 0 {
        return None;
      }
      forwarded := ImportAll(addresses, token, lookup, freshId);
    }

    /** The part of `handleBulkImport` after the guards: geocode every address, then forward. */
    method ImportAll(addresses: seq<string>, token: string, lookup: string -> (HttpReply, HttpReply),
                     freshId: nat -> string)
      returns (forwarded: Option<seq<Location>>)
      modifies this
      ensures results == Outcomes(addresses, token, lookup, freshId, |addresses|)
      ensures inputText == old(inputText) && !isProcessing && showResults
      ensures forwarded == (if |Successes(results)| > 0 then Some(Successes(results)) else None)
    {
      isProcessing := true;
      showResults := true;
      var processedResults := GeocodeAll(addresses, token, lookup, freshId);
      isProcessing := false;
      var successfulLocations := Successes(processedResults);
      if |successfulLocations| > 0 {
        forwarded := Some(successfulLocations);
      } else {
        forwarded := None;
      }
    }

    /**
     * The loop of `handleBulkImport`: the results list starts all pending and, after each
     * address settles, holds the settled prefix followed by the pending rest.
     */
    method GeocodeAll(addresses: seq<string>, token: string, lookup: string -> (HttpReply, HttpReply),
                      freshId: nat -> string)
      returns (processedResults: seq<ImportResult>)
      modifies this
      ensures processedResults == Outcomes(addresses, token, lookup, freshId, |addresses|)
      ensures results == processedResults
      ensures inputText == old(inputText) && isProcessing == old(isProcessing) && showResults == old(showResults)
    {
      var initialResults := PendingResults(addresses);
      results := initialResults;
      processedResults := [];
      for i := 0 to |addresses|
        invariant processedResults == Outcomes(addresses, token, lookup, freshId, i)
        invariant results == processedResults + initialResults[i..]
        invariant inputText == old(inputText) && isProcessing == old(isProcessing) && showResults == old(showResults)
      {
        var address := addresses[i];
        var location := GeocodeAddress(address, token, lookup(address), freshId(i));
        if location.Some? {
          processedResults := processedResults + [ImportResult(address, location, None, Succeeded)];
        } else {
          processedResults := processedResults + [ImportResult(address, None, Some(NoResults), Failed)];
        }
        results := processedResults + initialResults[i + 1..];
      }
      assert initialResults[|addresses|..] == [];
    }

    /** `handleClear`. */
    method HandleClear()
      modifies this
      ensures inputText == [] && results == [] && !showResults && isProcessing == old(isProcessing)
    {
      inputText := [];
      results := [];
      showResults := false;
    }
  }
}
