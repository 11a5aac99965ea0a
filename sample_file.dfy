/** A small export, parsed end to end: the file header and the blank line
    after it are passed over, the key block collects its two pairs exactly as
    the prototype splits them (a quoted name keeps its opening quote, the data
    keeps its quotes), and the final blank line closes the block. A second
    block closes without pairs and receives the placeholder. A header that
    follows a block with no blank line between is read as a value line. */
module SampleFile {
  import opened Text
  import opened RegData
  import opened LineScan
  import opened Parser

  const Header: string := "Windows Registry Editor Version 5.00"
  const KeyA: string := "[HKEY_CURRENT_USER\\A]"
  const KeyB: string := "[HKEY_CURRENT_USER\\B]"
  const NamedPair: string := "\"a\"=\"b\""
  const DefaultPair: string := "@=\"x\""

  lemma NamedPairEntry()
    ensures EntryOf(NamedPair) == Recorded(RegFile("\"a", RegSz, "\"b\""))
  {
    var line := NamedPair;
    assert line[..2] == "\"a";
    assert "\"a"[..1] == "\"" && "\""[..0] == "";
    assert QuoteCount("\"") == 1;
    assert QuoteCount(line[..2]) == 1;
    assert IsSecondQuote(line, 2);
    assert PairAt(line, 2);
    assert line[..7] == "\"a" + QuoteEquals + "\"b\"";
    forall j | 0 <= j < 2 ensures !OccursAt(line, QuoteEquals, j) {
      assert line[j + 1] != '=';
    }
    forall j | 4 <= j < 7 ensures !OccursAt(line, QuoteEquals, j) {
      assert j + 2 <= 7 ==> line[j + 1] != '=';
    }
    assert FirstTwoPieces(line, QuoteEquals, "\"a", "\"b\"");
    QuotedLineRecorded(line, "\"a", "\"b\"");
  }

  lemma DefaultPairEntry()
    ensures EntryOf(DefaultPair) == Recorded(RegFile("@", RegSz, "\"x\""))
  {
    var line := DefaultPair;
    assert line[..5] == "@" + EqualsSign + "\"x\"";
    assert !OccursAt(line, EqualsSign, 0) by { assert line[0..1][0] == '@'; }
    forall j | 2 <= j < 5 ensures !OccursAt(line, EqualsSign, j) {
      assert line[j] != '=';
    }
    assert FirstTwoPieces(line, EqualsSign, "@", "\"x\"");
    AtLineRecorded(line, "@", "\"x\"");
  }

  lemma LineKinds()
    ensures IsNullOrWhiteSpace("")
    ensures !IsKeyHeader(Header)
    ensures IsKeyHeader(KeyA) && IsKeyHeader(KeyB)
    ensures !IsNullOrWhiteSpace(NamedPair) && !IsNullOrWhiteSpace(DefaultPair)
  {
    assert Header[..5] == "Windo";
    assert !IsWhiteSpace(NamedPair[0]);
    assert !IsWhiteSpace(DefaultPair[0]);
  }

  const BlockA: RegFolder := RegFolder(KeyA, [RegFile("\"a", RegSz, "\"b\""), RegFile("@", RegSz, "\"x\"")])

  lemma StepsToKeyA()
    ensures Step(Step(Step(Step(Initial, ""), Header), ""), KeyA) == ParseState([RegFolder(KeyA, [])], 0, true)
  {
    LineKinds();
  }

  lemma StepNamedPair()
    ensures Step(ParseState([RegFolder(KeyA, [])], 0, true), NamedPair)
            == ParseState([RegFolder(KeyA, [RegFile("\"a", RegSz, "\"b\"")])], 0, true)
  {
    LineKinds();
    NamedPairEntry();
    var st := ParseState([RegFolder(KeyA, [])], 0, true);
    var r := Step(st, NamedPair);
    assert r.enterKeyReg && r.nextFileData == 0 && |r.folders| == 1;
    assert r.folders[0].keyPath == KeyA;
    assert r.folders[0].regFiles == [RegFile("\"a", RegSz, "\"b\"")];
    assert r.folders == [RegFolder(KeyA, [RegFile("\"a", RegSz, "\"b\"")])];
  }

  lemma StepDefaultPair()
    ensures Step(ParseState([RegFolder(KeyA, [RegFile("\"a", RegSz, "\"b\"")])], 0, true), DefaultPair)
            == ParseState([BlockA], 0, true)
  {
    LineKinds();
    DefaultPairEntry();
    var st := ParseState([RegFolder(KeyA, [RegFile("\"a", RegSz, "\"b\"")])], 0, true);
    var r := Step(st, DefaultPair);
    assert r.enterKeyReg && r.nextFileData == 0 && |r.folders| == 1;
    assert r.folders[0].keyPath == KeyA;
    assert r.folders[0].regFiles == [RegFile("\"a", RegSz, "\"b\""), RegFile("@", RegSz, "\"x\"")];
    assert r.folders == [BlockA];
  }

  lemma StepsInKeyA()
    ensures Step(Step(ParseState([RegFolder(KeyA, [])], 0, true), NamedPair), DefaultPair)
            == ParseState([BlockA], 0, true)
  {
    StepNamedPair();
    StepDefaultPair();
  }

  lemma StepsToEnd()
    ensures Step(Step(Step(ParseState([BlockA], 0, true), ""), KeyB), "")
            == ParseState([BlockA, RegFolder(KeyB, [DefaultEntry])], 2, false)
  {
    LineKinds();
  }

  lemma StepHeaderInBlock()
    ensures Step(ParseState([RegFolder(KeyA, [RegFile("\"a", RegSz, "\"b\"")])], 0, true), KeyB)
            == ParseState([RegFolder(KeyA, [RegFile("\"a", RegSz, "\"b\"")])], 0, true)
  {
    LineKinds();
    QuoteFreeCount(KeyB);
    HeaderInBlockIgnored(ParseState([RegFolder(KeyA, [RegFile("\"a", RegSz, "\"b\"")])], 0, true), KeyB);
  }

  lemma OpenKeyA()
    ensures Step(Step(Initial, ""), KeyA) == ParseState([RegFolder(KeyA, [])], 0, true)
  {
    LineKinds();
  }

  lemma CloseBlockA()
    ensures Step(ParseState([BlockA], 0, true), "") == ParseState([BlockA], 1, false)
  {
    LineKinds();
  }

  /** Without the blank line before it, a second header is read as a value
      line of the open block, and the pairs after it belong to the first key. */
  lemma MissingBlankLine()
    ensures ParseResult([KeyA, NamedPair, KeyB, DefaultPair, ""]) == [BlockA]
  {
    OpenKeyA();
    StepNamedPair();
    StepHeaderInBlock();
    StepDefaultPair();
    CloseBlockA();
    var a1 := Step(Initial, "");
    var a2 := ParseState([RegFolder(KeyA, [])], 0, true);
    var a3 := ParseState([RegFolder(KeyA, [RegFile("\"a", RegSz, "\"b\"")])], 0, true);
    var a5 := ParseState([BlockA], 0, true);
    RunCons(a5, "", []);
    RunCons(a3, DefaultPair, [""]);
    RunCons(a3, KeyB, [DefaultPair, ""]);
    RunCons(a2, NamedPair, [KeyB, DefaultPair, ""]);
    RunCons(a1, KeyA, [NamedPair, KeyB, DefaultPair, ""]);
    RunCons(Initial, "", [KeyA, NamedPair, KeyB, DefaultPair, ""]);
  }

  lemma SampleParse()
    ensures ParseResult([Header, "", KeyA, NamedPair, DefaultPair, "", KeyB, ""])
            == [BlockA, RegFolder(KeyB, [DefaultEntry])]
  {
    StepsToKeyA();
    StepsInKeyA();
    StepsToEnd();
    var a1 := Step(Initial, "");
    var a2 := Step(a1, Header);
    var a3 := Step(a2, "");
    var a4 := Step(a3, KeyA);
    var a5 := Step(a4, NamedPair);
    var a6 := Step(a5, DefaultPair);
    var a7 := Step(a6, "");
    var a8 := Step(a7, KeyB);
    var a9 := Step(a8, "");
    RunCons(a8, "", []);
    RunCons(a7, KeyB, [""]);
    RunCons(a6, "", [KeyB, ""]);
    RunCons(a5, DefaultPair, ["", KeyB, ""]);
    RunCons(a4, NamedPair, [DefaultPair, "", KeyB, ""]);
    RunCons(a3, KeyA, [NamedPair, DefaultPair, "", KeyB, ""]);
    RunCons(a2, "", [KeyA, NamedPair, DefaultPair, "", KeyB, ""]);
    RunCons(a1, Header, ["", KeyA, NamedPair, DefaultPair, "", KeyB, ""]);
    RunCons(Initial, "", [Header, "", KeyA, NamedPair, DefaultPair, "", KeyB, ""]);
  }
}
