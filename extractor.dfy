/** The response parser of `extract_time_place_location_date`: the language
    model's reply is cut into lines, and each line is filed under the first
    of Date, Time, Place, Location it mentions, as the line with
    "<Keyword>:" deleted and surrounding whitespace stripped. The reply is
    an input here; the model call that produces it is not part of this model. */
module Extractor {
  import opened Wrappers
  import opened PyStr

  /** The four details the parser files, listed in the order the lines are tested. */
  datatype Field = Date | Time | Place | Location

  /** Position of a field in the test order: a smaller rank is tested first. */
  function Rank(f: Field): nat
  {
    match f
    case Date => 0
    case Time => 1
    case Place => 2
    case Location => 3
  }

  /** The bare word a line is searched for. */
  function Keyword(f: Field): string
  {
    match f
    case Date => "Date"
    case Time => "Time"
    case Place => "Place"
    case Location => "Location"
  }

  /** The text deleted from a line filed under `f`: the keyword and a colon. */
  function Marker(f: Field): string
  {
    Keyword(f) + ":"
  }

  /** The key of the field's list in the result dictionary. */
  function Key(f: Field): string
  {
    match f
    case Date => "dates"
    case Time => "times"
    case Place => "places"
    case Location => "locations"
  }

  /** The dictionary keys and markers of the four fields, spelled out. */
  lemma FieldNames()
    ensures Key(Date) == "dates" && Marker(Date) == "Date:"
    ensures Key(Time) == "times" && Marker(Time) == "Time:"
    ensures Key(Place) == "places" && Marker(Place) == "Place:"
    ensures Key(Location) == "locations" && Marker(Location) == "Location:"
  {
  }

  /** The `if`/`elif` chain: the field a line is filed under, if any. */
  function Classify(line: string): Option<Field>
  {
    if Contains(line, "Date") then Some(Date)
    else if Contains(line, "Time") then Some(Time)
    else if Contains(line, "Place") then Some(Place)
    else if Contains(line, "Location") then Some(Location)
    else None
  }

  /** First match wins: a line goes to `f` exactly when it mentions `f`'s
      keyword and none of the keywords tested before it, and it is dropped
      exactly when it mentions none of the four. */
  lemma FirstMatchWins(line: string, f: Field)
    ensures Classify(line) == Some(f) <==>
              Contains(line, Keyword(f)) && forall g :: Rank(g) < Rank(f) ==> !Contains(line, Keyword(g))
    ensures Classify(line) == None <==> forall g :: !Contains(line, Keyword(g))
  {
    assert Keyword(Date) == "Date" && Keyword(Time) == "Time";
    assert Keyword(Place) == "Place" && Keyword(Location) == "Location";
  }

  /** The value stored for a line filed under `f`: every "<Keyword>:" deleted
      in one left-to-right pass, then surrounding whitespace stripped. */
  function Clean(line: string, f: Field): string
  {
    Strip(RemoveAll(line, Marker(f)))
  }

  /** The four lists of the result dictionary. */
  datatype Extraction = Extraction(dates: seq<string>, times: seq<string>, places: seq<string>, locations: seq<string>)
  {
    function Get(f: Field): seq<string>
    {
      match f
      case Date => dates
      case Time => times
      case Place => places
      case Location => locations
    }

    /** Appending to one list leaves the other three as they were. */
    function Add(f: Field, v: string): (e: Extraction)
      ensures e.Get(f) == Get(f) + [v]
      ensures forall g :: g != f ==> e.Get(g) == Get(g)
    {
      match f
      case Date => this.(dates := dates + [v])
      case Time => this.(times := times + [v])
      case Place => this.(places := places + [v])
      case Location => this.(locations := locations + [v])
    }

    function Total(): nat
    {
      |dates| + |times| + |places| + |locations|
    }
  }

  const NoDetails := Extraction([], [], [], [])

  /** One iteration of the scan: file `line` into `e`, or drop it. */
  function FileLine(e: Extraction, line: string): Extraction
  {
    match Classify(line)
    case None => e
    case Some(f) => e.Add(f, Clean(line, f))
  }

  /** The lists after scanning `lines` in order. */
  function ScanLines(lines: seq<string>): Extraction
  {
    if lines == [] then NoDetails
    else FileLine(ScanLines(lines[..|lines| - 1]), lines[|lines| - 1])
  }

  /** The parser's result for a reply: nothing for an empty reply, otherwise
      the scan of its lines split at "\n". */
  function Scan(response: string): Extraction
  {
    if response == [] then NoDetails else ScanLines(Split(response, '\n'))
  }

  /** The result as the dictionary the source returns. */
  function ToDict(e: Extraction): (d: map<string, seq<string>>)
    ensures d.Keys == {"dates", "times", "places", "locations"}
    ensures forall f :: Key(f) in d && d[Key(f)] == e.Get(f)
  {
    map["dates" := e.dates, "times" := e.times, "places" := e.places, "locations" := e.locations]
  }

  /** Appending to one list of the result is updating that key of the dictionary. */
  lemma DictAdd(e: Extraction, f: Field, v: string)
    ensures ToDict(e.Add(f, v)) == ToDict(e)[Key(f) := ToDict(e)[Key(f)] + [v]]
  {
    var d, d' := ToDict(e), ToDict(e.Add(f, v));
    assert d'.Keys == d[Key(f) := d[Key(f)] + [v]].Keys;
    forall k | k in d' ensures d'[k] == d[Key(f) := d[Key(f)] + [v]][k] {
      if k != Key(f) {
        var g :| Key(g) == k;
      }
    }
  }

  /** Scanning one more line is filing it into the scan so far. */
  lemma ScanNext(lines: seq<string>, i: nat)
    requires i < |lines|
    ensures ScanLines(lines[..i + 1]) == FileLine(ScanLines(lines[..i]), lines[i])
  {
    assert lines[..i + 1][..i] == lines[..i];
  }

  /** Filing a line classified under `f` appends its cleaned value at `f`'s key. */
  lemma DictFile(e: Extraction, line: string, f: Field)
    requires Classify(line) == Some(f)
    ensures ToDict(FileLine(e, line)) == ToDict(e)[Key(f) := ToDict(e)[Key(f)] + [Strip(RemoveAll(line, Marker(f)))]]
  {
    DictAdd(e, f, Clean(line, f));
  }

  /** The parser: starts from four empty lists and, for a non-empty reply,
      appends each line's value to the list of the first keyword it mentions. */
  method Parse(response: string) returns (info: map<string, seq<string>>)
    ensures info == ToDict(Scan(response))
    ensures info.Keys == {"dates", "times", "places", "locations"}
    ensures response == [] ==> forall f :: info[Key(f)] == []
  {
    info := map["dates" := [], "times" := [], "places" := [], "locations" := []];
    if response != [] {
      FieldNames();
      var lines := Split(response, '\n');
      for i := 0 to |lines|
        invariant info == ToDict(ScanLines(lines[..i]))
      {
        var line := lines[i];
        ScanNext(lines, i);
        ghost var before := ScanLines(lines[..i]);
        if Contains(line, "Date") {
          DictFile(before, line, Date);
          info := info["dates" := info["dates"] + [Strip(RemoveAll(line, "Date:"))]];
        } else if Contains(line, "Time") {
          DictFile(before, line, Time);
          info := info["times" := info["times"] + [Strip(RemoveAll(line, "Time:"))]];
        } else if Contains(line, "Place") {
          DictFile(before, line, Place);
          info := info["places" := info["places"] + [Strip(RemoveAll(line, "Place:"))]];
        } else if Contains(line, "Location") {
          DictFile(before, line, Location);
          info := info["locations" := info["locations"] + [Strip(RemoveAll(line, "Location:"))]];
        }
      }
      assert lines[..|lines|] == lines;
    }
  }

  /** Indices of the lines filed under `f`, in increasing order. */
  function Positions(lines: seq<string>, f: Field): seq<nat>
  {
    if lines == [] then []
    else Positions(lines[..|lines| - 1], f) + (if Classify(lines[|lines| - 1]) == Some(f) then [|lines| - 1] else [])
  }

  /** Filing a line adds its cleaned value to its own field's list and to no other. */
  lemma FileLineGet(e: Extraction, line: string, f: Field)
    ensures FileLine(e, line).Get(f) == e.Get(f) + (if Classify(line) == Some(f) then [Clean(line, f)] else [])
    ensures FileLine(e, line).Total() == e.Total() + (if Classify(line) == None then 0 else 1)
  {
  }

  /** The positions filed under `f` are valid indices, in increasing order,
      and are exactly the indices of the lines classified under `f`. */
  lemma {:induction false} PositionsShape(lines: seq<string>, f: Field)
    ensures forall j :: 0 <= j < |Positions(lines, f)| ==> Positions(lines, f)[j] < |lines|
    ensures forall j, k :: 0 <= j < k < |Positions(lines, f)| ==> Positions(lines, f)[j] < Positions(lines, f)[k]
    ensures forall i :: 0 <= i < |lines| ==> (i in Positions(lines, f) <==> Classify(lines[i]) == Some(f))
    decreases |lines|
  {
    if lines != [] {
      var n := |lines| - 1;
      var init := lines[..n];
      PositionsShape(init, f);
      var before := Positions(init, f);
      assert Positions(lines, f) == before + (if Classify(lines[n]) == Some(f) then [n] else []);
      assert n !in before;
      forall i | 0 <= i < n ensures lines[i] == init[i] { }
    }
  }

  /** The list of `f` holds one cleaned value per position filed under `f`,
      in the same order. */
  lemma {:induction false} BucketContents(lines: seq<string>, f: Field)
    ensures |Positions(lines, f)| == |ScanLines(lines).Get(f)|
    ensures forall j :: 0 <= j < |Positions(lines, f)| ==>
              Positions(lines, f)[j] < |lines| && ScanLines(lines).Get(f)[j] == Clean(lines[Positions(lines, f)[j]], f)
    decreases |lines|
  {
    PositionsShape(lines, f);
    if lines != [] {
      var n := |lines| - 1;
      var init := lines[..n];
      BucketContents(init, f);
      PositionsShape(init, f);
      FileLineGet(ScanLines(init), lines[n], f);
      assert ScanLines(lines) == FileLine(ScanLines(init), lines[n]);
      assert Positions(lines, f) == Positions(init, f) + (if Classify(lines[n]) == Some(f) then [n] else []);
      forall j | 0 <= j < |Positions(init, f)|
        ensures ScanLines(lines).Get(f)[j] == Clean(lines[Positions(lines, f)[j]], f)
      {
        assert lines[Positions(init, f)[j]] == init[Positions(init, f)[j]];
      }
    }
  }

  /** Each list holds, in source-line order, the cleaned values of exactly the
      lines classified under its field: one entry per such line, none for any
      other line. */
  lemma BucketFollowsLines(lines: seq<string>, f: Field)
    ensures |Positions(lines, f)| == |ScanLines(lines).Get(f)|
    ensures forall j :: 0 <= j < |Positions(lines, f)| ==>
              Positions(lines, f)[j] < |lines| && ScanLines(lines).Get(f)[j] == Clean(lines[Positions(lines, f)[j]], f)
    ensures forall j, k :: 0 <= j < k < |Positions(lines, f)| ==> Positions(lines, f)[j] < Positions(lines, f)[k]
    ensures forall i :: 0 <= i < |lines| ==> (i in Positions(lines, f) <==> Classify(lines[i]) == Some(f))
  {
    PositionsShape(lines, f);
    BucketContents(lines, f);
  }

  /** No line of `lines` is dropped by the scan. */
  predicate NoneDropped(lines: seq<string>)
  {
    forall line :: line in lines ==> Classify(line) != None
  }

  /** Each line lands in at most one list, so the lists hold at most one entry
      per line, and exactly one per line only when no line is dropped. */
  lemma {:induction false} TotalAtMostLines(lines: seq<string>)
    ensures ScanLines(lines).Total() <= |lines|
    ensures ScanLines(lines).Total() == |lines| <==> NoneDropped(lines)
    decreases |lines|
  {
    if lines != [] {
      var n := |lines| - 1;
      var init := lines[..n];
      TotalAtMostLines(init);
      FileLineGet(ScanLines(init), lines[n], Date);
      assert lines == init + [lines[n]];
      assert NoneDropped(lines) <==> NoneDropped(init) && Classify(lines[n]) != None;
    }
  }

  /** Number of lines that mention `word`. */
  function LinesContaining(lines: seq<string>, word: string): nat
  {
    if lines == [] then 0
    else (if Contains(lines[0], word) then 1 else 0) + LinesContaining(lines[1..], word)
  }

  lemma {:induction false} LinesContainingAppend(lines: seq<string>, line: string, word: string)
    ensures LinesContaining(lines + [line], word) == LinesContaining(lines, word) + (if Contains(line, word) then 1 else 0)
    decreases |lines|
  {
    if lines != [] {
      assert (lines + [line])[1..] == lines[1..] + [line];
      LinesContainingAppend(lines[1..], line, word);
    }
  }

  /** The dates list has one entry for every line that mentions "Date". */
  lemma {:induction false} DatesCount(lines: seq<string>)
    ensures |ScanLines(lines).dates| == LinesContaining(lines, "Date")
    decreases |lines|
  {
    if lines != [] {
      var n := |lines| - 1;
      DatesCount(lines[..n]);
      LinesContainingAppend(lines[..n], lines[n], "Date");
      assert lines[..n] + [lines[n]] == lines;
      FileLineGet(ScanLines(lines[..n]), lines[n], Date);
    }
  }

  /** For a whole reply: the lists together hold at most one entry per line
      of the reply, that is, at most one more than its number of "\n". */
  lemma ScanTotalBound(response: string)
    ensures Scan(response).Total() <= multiset(response)['\n'] + 1
  {
    if response != [] {
      var lines := Split(response, '\n');
      TotalAtMostLines(lines);
      SplitCount(response, '\n');
    }
  }

  /** No stored value starts or ends with whitespace. */
  lemma StoredValuesTrimmed(response: string, f: Field)
    ensures forall v :: v in Scan(response).Get(f) ==> Trimmed(v)
  {
    if response != [] {
      var lines := Split(response, '\n');
      BucketFollowsLines(lines, f);
      forall v | v in Scan(response).Get(f) ensures Trimmed(v) {
        var j :| 0 <= j < |Scan(response).Get(f)| && Scan(response).Get(f)[j] == v;
        assert v == Clean(lines[Positions(lines, f)[j]], f);
        StripShape(RemoveAll(lines[Positions(lines, f)[j]], Marker(f)));
      }
    }
  }
}
