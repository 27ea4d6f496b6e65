/** Consequences of the parser for particular reply shapes: one labelled
    line per field and a note, values that start with a capital letter, a
    bare keyword without a colon, a marker split across another marker, and
    a lower-case keyword. */
module ParserCases {
  import opened PyStr
  import opened Extractor
  import opened Wrappers

  /** The line a reply gives for field `f` with value `v`: "<Keyword>: <v>". */
  function Labelled(f: Field, v: string): string
  {
    Keyword(f) + ": " + v
  }

  /** `v` is one line, mentions no keyword tested before `f` and never
      repeats `f`'s marker. */
  predicate FilesUnder(f: Field, v: string)
  {
    '\n' !in v && !Contains(v, Marker(f)) && forall g :: Rank(g) < Rank(f) ==> !Contains(v, Keyword(g))
  }

  /** `note` is one line that mentions none of the four keywords. */
  predicate Unlabelled(note: string)
  {
    '\n' !in note && forall g :: !Contains(note, Keyword(g))
  }

  /** The initial of a keyword is absent from the label of every keyword tested after it. */
  lemma LabelLacksEarlierInitial(f: Field, g: Field)
    requires Rank(g) < Rank(f)
    ensures Keyword(g)[0] !in Keyword(f) + ": "
  {
    match f
    case Date =>
    case Time =>
      assert Keyword(g) == "Date";
    case Place =>
      assert Keyword(g) == "Date" || Keyword(g) == "Time";
    case Location =>
      assert Keyword(g) == "Date" || Keyword(g) == "Time" || Keyword(g) == "Place";
  }

  /** A labelled line is filed under its own field whenever its value
      mentions no keyword tested before it; the value may span lines or
      repeat the marker. */
  lemma ClassifyLabelled(f: Field, v: string)
    requires forall g :: Rank(g) < Rank(f) ==> !Contains(v, Keyword(g))
    ensures Classify(Labelled(f, v)) == Some(f)
  {
    var prefix := Keyword(f) + ": ";
    var line := Labelled(f, v);
    assert line == prefix + v;
    assert line[..|Keyword(f)|] == Keyword(f);
    forall g | Rank(g) < Rank(f)
      ensures !Contains(line, Keyword(g))
    {
      LabelLacksEarlierInitial(f, g);
      ContainsPastPrefix(prefix, v, Keyword(g));
    }
    FirstMatchWins(line, f);
  }

  /** A labelled line is stored as its value, stripped, whenever the value
      does not repeat the marker. */
  lemma CleanLabelled(f: Field, v: string)
    requires !Contains(v, Marker(f))
    ensures Clean(Labelled(f, v), f) == Strip(v)
  {
    assert Labelled(f, v) == Marker(f) + (" " + v);
    RemoveAllLeading(Marker(f), " " + v);
    assert Marker(f)[0] !in " ";
    ContainsPastPrefix(" ", v, Marker(f));
    RemoveAllAbsent(" " + v, Marker(f));
    assert AllSpace(" ");
    LStripSpaces(" ", v);
  }

  lemma LabelledOneLine(f: Field, v: string)
    requires '\n' !in v
    ensures '\n' !in Labelled(f, v)
  {
    assert '\n' !in Keyword(f) + ": ";
  }

  lemma NoteDropped(note: string)
    requires Unlabelled(note)
    ensures Classify(note) == None
  {
    FirstMatchWins(note, Date);
  }

  /** Filing a labelled line adds its stripped value to its field's list. */
  lemma FileLabelled(e: Extraction, f: Field, v: string)
    requires FilesUnder(f, v)
    ensures FileLine(e, Labelled(f, v)) == e.Add(f, Strip(v))
  {
    ClassifyLabelled(f, v);
    CleanLabelled(f, v);
  }

  /** Filing a line that mentions no keyword changes nothing. */
  lemma FileUnlabelled(e: Extraction, note: string)
    requires Unlabelled(note)
    ensures FileLine(e, note) == e
  {
    NoteDropped(note);
  }

  /** Scanning five lines is filing them one after another. */
  lemma ScanFive(lines: seq<string>)
    requires |lines| == 5
    ensures ScanLines(lines) == FileLine(FileLine(FileLine(FileLine(FileLine(NoDetails, lines[0]), lines[1]), lines[2]), lines[3]), lines[4])
  {
    ScanNext(lines, 0);
    ScanNext(lines, 1);
    ScanNext(lines, 2);
    ScanNext(lines, 3);
    ScanNext(lines, 4);
    assert lines[..0] == [] && lines[..5] == lines;
  }

  /** The scan of five lines: one per field, in priority order, then a note. */
  lemma ScanFiveLines(d: string, t: string, p: string, l: string, note: string)
    requires FilesUnder(Date, d) && FilesUnder(Time, t) && FilesUnder(Place, p) && FilesUnder(Location, l)
    requires Unlabelled(note)
    ensures ScanLines([Labelled(Date, d), Labelled(Time, t), Labelled(Place, p), Labelled(Location, l), note])
            == Extraction([Strip(d)], [Strip(t)], [Strip(p)], [Strip(l)])
  {
    ScanFive([Labelled(Date, d), Labelled(Time, t), Labelled(Place, p), Labelled(Location, l), note]);
    var e1 := NoDetails.Add(Date, Strip(d));
    FileLabelled(NoDetails, Date, d);
    var e2 := e1.Add(Time, Strip(t));
    FileLabelled(e1, Time, t);
    var e3 := e2.Add(Place, Strip(p));
    FileLabelled(e2, Place, p);
    var e4 := e3.Add(Location, Strip(l));
    FileLabelled(e3, Location, l);
    FileUnlabelled(e4, note);
    AddOnePerField(Strip(d), Strip(t), Strip(p), Strip(l));
  }

  /** One value added per field, in priority order, gives one-element lists. */
  lemma AddOnePerField(d: string, t: string, p: string, l: string)
    ensures NoDetails.Add(Date, d).Add(Time, t).Add(Place, p).Add(Location, l) == Extraction([d], [t], [p], [l])
  {
    var e1 := NoDetails.Add(Date, d);
    assert e1 == Extraction([d], [], [], []);
    var e2 := e1.Add(Time, t);
    assert e2 == Extraction([d], [t], [], []);
    var e3 := e2.Add(Place, p);
    assert e3 == Extraction([d], [t], [p], []);
  }


  lemma LabelledLiterals(d: string, t: string, p: string, l: string)
    ensures Labelled(Date, d) == "Date: " + d && Labelled(Time, t) == "Time: " + t
    ensures Labelled(Place, p) == "Place: " + p && Labelled(Location, l) == "Location: " + l
  {
    assert Keyword(Date) + ": " == "Date: " && Keyword(Time) + ": " == "Time: ";
    assert Keyword(Place) + ": " == "Place: " && Keyword(Location) + ": " == "Location: ";
  }

  /** A reply made of one labelled line per field, in priority order, and a
      trailing note line files each value, stripped, under its own field and
      drops the note, provided each value is one line, mentions no keyword
      tested before its own and does not repeat its own marker, and the note
      mentions no keyword. */
  lemma WellFormedReply(d: string, t: string, p: string, l: string, note: string)
    requires FilesUnder(Date, d) && FilesUnder(Time, t) && FilesUnder(Place, p) && FilesUnder(Location, l)
    requires Unlabelled(note)
    ensures Scan(Join(["Date: " + d, "Time: " + t, "Place: " + p, "Location: " + l, note], '\n'))
            == Extraction([Strip(d)], [Strip(t)], [Strip(p)], [Strip(l)])
  {
    var lines := [Labelled(Date, d), Labelled(Time, t), Labelled(Place, p), Labelled(Location, l), note];
    LabelledLiterals(d, t, p, l);
    LabelledOneLine(Date, d);
    LabelledOneLine(Time, t);
    LabelledOneLine(Place, p);
    LabelledOneLine(Location, l);
    assert forall x :: x in lines ==> '\n' !in x;
    SplitJoin(lines, '\n');
    assert Join(lines, '\n') != [] by {
      assert |Join(lines, '\n')| >= 1 + |Join(lines[1..], '\n')|;
    }
    ScanFiveLines(d, t, p, l, note);
  }

  /** A capital letter that starts a keyword, or a line break. */
  predicate KeyLetter(c: char)
  {
    c == 'D' || c == 'T' || c == 'P' || c == 'L' || c == '\n'
  }

  /** A text with no keyword initial and no line break. */
  predicate Plain(v: string)
  {
    forall k :: 0 <= k < |v| ==> !KeyLetter(v[k])
  }

  lemma PlainLacks(v: string)
    requires Plain(v)
    ensures 'D' !in v && 'T' !in v && 'P' !in v && 'L' !in v && '\n' !in v
  {
  }

  /** A plain text files under any field and, as a note, is dropped. */
  lemma PlainFiles(v: string)
    requires Plain(v)
    ensures forall f :: FilesUnder(f, v)
    ensures Unlabelled(v)
  {
    PlainLacks(v);
    assert Keyword(Date)[0] == 'D' && Keyword(Time)[0] == 'T';
    assert Keyword(Place)[0] == 'P' && Keyword(Location)[0] == 'L';
    forall g
      ensures !Contains(v, Keyword(g)) && !Contains(v, Marker(g))
    {
      NotContainedWithoutChar(v, Keyword(g), Keyword(g)[0]);
      NotContainedWithoutChar(v, Marker(g), Keyword(g)[0]);
    }
  }

  lemma StripTrimmedValue(v: string)
    requires Trimmed(v)
    ensures Strip(v) == v
  {
    assert [] + v + [] == v;
    StripPadding([], v, []);
  }

  /** A plain, trimmed value files under any field and is stored unchanged. */
  lemma PlainValue(f: Field, v: string)
    requires Plain(v) && Trimmed(v)
    ensures FilesUnder(f, v) && Strip(v) == v
  {
    PlainFiles(v);
    StripTrimmedValue(v);
  }

  lemma SampleDate()
    ensures FilesUnder(Date, "2024-05-01") && Strip("2024-05-01") == "2024-05-01"
  {
    assert Plain("2024-05-01") && Trimmed("2024-05-01");
    PlainValue(Date, "2024-05-01");
  }

  lemma SampleTime()
    ensures FilesUnder(Time, "10:00") && Strip("10:00") == "10:00"
  {
    assert Plain("10:00") && Trimmed("10:00");
    PlainValue(Time, "10:00");
  }

  lemma SamplePlace()
    ensures FilesUnder(Place, "Office") && Strip("Office") == "Office"
  {
    assert Plain("Office") && Trimmed("Office");
    PlainValue(Place, "Office");
  }

  lemma SampleLocation()
    ensures FilesUnder(Location, "Room 4") && Strip("Room 4") == "Room 4"
  {
    assert Plain("Room 4") && Trimmed("Room 4");
    PlainValue(Location, "Room 4");
  }

  lemma SampleNote()
    ensures Unlabelled("Note: irrelevant")
  {
    assert Plain("Note: irrelevant");
    PlainFiles("Note: irrelevant");
  }

  lemma SampleLines()
    ensures ["Date: 2024-05-01", "Time: 10:00", "Place: Office", "Location: Room 4", "Note: irrelevant"]
         == ["Date: " + "2024-05-01", "Time: " + "10:00", "Place: " + "Office", "Location: " + "Room 4", "Note: irrelevant"]
  {
    assert "Date: 2024-05-01" == "Date: " + "2024-05-01";
    assert "Time: 10:00" == "Time: " + "10:00";
    assert "Place: Office" == "Place: " + "Office";
    assert "Location: Room 4" == "Location: " + "Room 4";
  }

  /** The reply "Date: 2024-05-01", "Time: 10:00", "Place: Office",
      "Location: Room 4", "Note: irrelevant" (joined with newlines) yields one
      value per field, and the note line is dropped. */
  lemma SampleReply()
    ensures Scan(Join(["Date: 2024-05-01", "Time: 10:00", "Place: Office", "Location: Room 4", "Note: irrelevant"], '\n'))
            == Extraction(["2024-05-01"], ["10:00"], ["Office"], ["Room 4"])
  {
    SampleDate();
    SampleTime();
    SamplePlace();
    SampleLocation();
    SampleNote();
    WellFormedReply("2024-05-01", "10:00", "Office", "Room 4", "Note: irrelevant");
    SampleLines();
  }

  /** A one-line value without a colon files under `f` when, for every
      keyword tested before `f`, it lacks some character of that keyword. */
  lemma FilesUnderByChars(f: Field, v: string, missing: Field -> char)
    requires '\n' !in v && ':' !in v
    requires forall g :: Rank(g) < Rank(f) ==> missing(g) in Keyword(g) && missing(g) !in v
    ensures FilesUnder(f, v)
  {
    assert Marker(f)[|Marker(f)| - 1] == ':';
    NotContainedWithoutChar(v, Marker(f), ':');
    forall g | Rank(g) < Rank(f)
      ensures !Contains(v, Keyword(g))
    {
      NotContainedWithoutChar(v, Keyword(g), missing(g));
    }
  }

  lemma TuesdayLacks()
    ensures 'D' !in "Tuesday" && ':' !in "Tuesday" && '\n' !in "Tuesday"
  {
    LacksChar("Tuesday", 'D');
    LacksChar("Tuesday", ':');
    LacksChar("Tuesday", '\n');
  }

  lemma TuesdayFiles()
    ensures FilesUnder(Time, "Tuesday")
  {
    TuesdayLacks();
    assert Keyword(Date) == "Date";
    FilesUnderByChars(Time, "Tuesday", g => 'D');
  }

  lemma TownHallLacks()
    ensures 'D' !in "Town Hall" && 'i' !in "Town Hall" && ':' !in "Town Hall" && '\n' !in "Town Hall"
  {
    LacksChar("Town Hall", 'D');
    LacksChar("Town Hall", 'i');
    LacksChar("Town Hall", ':');
    LacksChar("Town Hall", '\n');
  }

  lemma TownHallFiles()
    ensures FilesUnder(Place, "Town Hall")
  {
    TownHallLacks();
    assert Keyword(Date) == "Date" && Keyword(Time) == "Time";
    FilesUnderByChars(Place, "Town Hall", g => if g == Date then 'D' else 'i');
  }

  lemma LobbyLacks()
    ensures 'D' !in "Lobby" && 'T' !in "Lobby" && 'P' !in "Lobby" && ':' !in "Lobby" && '\n' !in "Lobby"
  {
    LacksChar("Lobby", 'D');
    LacksChar("Lobby", 'T');
    LacksChar("Lobby", 'P');
    LacksChar("Lobby", ':');
    LacksChar("Lobby", '\n');
  }

  lemma LobbyFiles()
    ensures FilesUnder(Location, "Lobby")
  {
    LobbyLacks();
    assert Keyword(Date) == "Date" && Keyword(Time) == "Time" && Keyword(Place) == "Place";
    FilesUnderByChars(Location, "Lobby", g => if g == Date then 'D' else if g == Time then 'T' else 'P');
  }

  /** Values whose capital initial is also the initial of a keyword still
      file under their own field: "Tuesday" and "Town Hall" begin with
      Time's `T`, "Lobby" with Location's `L`. Only a whole keyword tested
      earlier could move a line, so they land under times, places and
      locations and are stored unchanged. */
  lemma CapitalisedValues()
    ensures Classify(Labelled(Time, "Tuesday")) == Some(Time) && Clean(Labelled(Time, "Tuesday"), Time) == "Tuesday"
    ensures Classify(Labelled(Place, "Town Hall")) == Some(Place) && Clean(Labelled(Place, "Town Hall"), Place) == "Town Hall"
    ensures Classify(Labelled(Location, "Lobby")) == Some(Location) && Clean(Labelled(Location, "Lobby"), Location) == "Lobby"
  {
    assert Trimmed("Tuesday");
    StripTrimmedValue("Tuesday");
    assert Trimmed("Town Hall");
    StripTrimmedValue("Town Hall");
    assert Trimmed("Lobby");
    StripTrimmedValue("Lobby");
    TuesdayFiles();
    TownHallFiles();
    LobbyFiles();
    ClassifyLabelled(Time, "Tuesday");
    CleanLabelled(Time, "Tuesday");
    ClassifyLabelled(Place, "Town Hall");
    CleanLabelled(Place, "Town Hall");
    ClassifyLabelled(Location, "Lobby");
    CleanLabelled(Location, "Lobby");
  }

  /** A value that repeats its own label does not move the line:
      "Time: Time: 10:00" is still filed under times. */
  lemma RepeatedMarkerFiled()
    ensures Classify(Labelled(Time, "Time: 10:00")) == Some(Time)
  {
    RepeatedValueLacksDate();
    assert forall g :: Rank(g) < Rank(Time) ==> g == Date;
    ClassifyLabelled(Time, "Time: 10:00");
  }

  lemma RepeatedValueLacksDate()
    ensures !Contains("Time: 10:00", Keyword(Date))
  {
    LacksChar("Time: 10:00", 'D');
    assert Keyword(Date) == "Date";
    NotContainedWithoutChar("Time: 10:00", Keyword(Date), 'D');
  }

  /** A reply of one line is that line filed on its own. */
  lemma ScanSingleLine(line: string)
    requires line != [] && '\n' !in line
    ensures Scan(line) == FileLine(NoDetails, line)
  {
    SplitWhole(line, '\n');
    assert Split(line, '\n') == [line];
    assert [line][..0] == [];
    assert ScanLines([line]) == FileLine(ScanLines([]), line);
  }

  /** A line that mentions "Date" but never "Date:" is kept whole; only its
      surrounding whitespace goes. */
  lemma BareKeywordKept(line: string)
    requires line != [] && '\n' !in line
    requires Contains(line, "Date") && !Contains(line, "Date:")
    ensures Scan(line) == Extraction([Strip(line)], [], [], [])
  {
    ScanSingleLine(line);
    RemoveAllAbsent(line, "Date:");
    assert Classify(line) == Some(Date);
    assert Marker(Date) == "Date:";
  }

  /** A character found at no index is not in the text. */
  lemma LacksChar(s: string, c: char)
    requires forall k :: 0 <= k < |s| ==> s[k] != c
    ensures c !in s
  {
  }

  /** A text that has `pat` right after a prefix contains `pat`. */
  lemma ContainsAfter(pre: string, pat: string, post: string)
    ensures Contains(pre + pat + post, pat)
  {
    ContainsIff(pre + pat + post, pat);
    assert (pre + pat + post)[|pre|..|pre| + |pat|] == pat;
    assert OccursAt(pre + pat + post, pat, |pre|);
  }

  lemma BareKeywordMentions()
    ensures Contains(" Date TBD ", "Date")
  {
    assert " Date TBD " == " " + "Date" + " TBD ";
    ContainsAfter(" ", "Date", " TBD ");
  }

  lemma BareKeywordNoMarker()
    ensures !Contains(" Date TBD ", "Date:")
  {
    LacksChar(" Date TBD ", ':');
    NotContainedWithoutChar(" Date TBD ", "Date:", ':');
  }

  lemma BareKeywordOneLine()
    ensures '\n' !in " Date TBD "
  {
    LacksChar(" Date TBD ", '\n');
  }


  lemma BareKeywordStripped()
    ensures Strip(" Date TBD ") == "Date TBD"
  {
    assert " Date TBD " == " " + "Date TBD" + " ";
    StripPadding(" ", "Date TBD", " ");
  }

  /** " Date TBD " is filed under dates as "Date TBD": no colon follows the
      keyword, so nothing is deleted and only the padding goes. */
  lemma BareKeywordSample()
    ensures Scan(" Date TBD ") == Extraction(["Date TBD"], [], [], [])
  {
    BareKeywordMentions();
    BareKeywordNoMarker();
    BareKeywordOneLine();
    BareKeywordStripped();
    BareKeywordKept(" Date TBD ");
  }

  lemma SinglePassClassified()
    ensures Classify("DaDate:te:") == Some(Date) && '\n' !in "DaDate:te:"
  {
    assert "DaDate:te:" == "Da" + "Date" + ":te:";
    ContainsAfter("Da", "Date", ":te:");
    LacksChar("DaDate:te:", '\n');
  }

  /** The first two characters start no marker; the third starts one, which is deleted. */
  lemma SinglePassRemoval()
    ensures RemoveAll("DaDate:te:", "Date:") == "Date:"
  {
    var line := "DaDate:te:";
    assert line[..5][2] == 'D' && "Date:"[2] == 't';
    assert RemoveAll(line, "Date:") == "D" + RemoveAll(line[1..], "Date:");
    assert line[1..][..5][0] == 'a' && "Date:"[0] == 'D';
    assert RemoveAll(line[1..], "Date:") == "a" + RemoveAll(line[2..], "Date:");
    assert line[2..] == "Date:" + "te:";
    RemoveAllLeading("Date:", "te:");
  }


  lemma SinglePassValue()
    ensures Clean("DaDate:te:", Date) == "Date:" && Contains("Date:", "Date:")
  {
    SinglePassRemoval();
    assert Marker(Date) == "Date:";
    assert [] + "Date:" + [] == "Date:";
    StripPadding([], "Date:", []);
    ContainsAfter([], "Date:", []);
  }

  /** Deletion is one pass: "DaDate:te:" loses its inner "Date:", and the two
      halves left around it close up into a new "Date:", which is stored. */
  lemma SinglePassSample()
    ensures Scan("DaDate:te:") == Extraction(["Date:"], [], [], [])
    ensures Contains(Scan("DaDate:te:").dates[0], "Date:")
  {
    SinglePassClassified();
    SinglePassValue();
    ScanSingleLine("DaDate:te:");
  }

  /** The keyword test is case-sensitive: "Updated" spells "date" in lower
      case and mentions no other keyword, so it is dropped. */
  lemma LowerCaseDropped()
    ensures Scan("Updated") == NoDetails
  {
    assert Plain("Updated");
    PlainFiles("Updated");
    NoteDropped("Updated");
    ScanSingleLine("Updated");
  }
}
