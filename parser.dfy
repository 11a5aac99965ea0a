/** `Parser.Parse`: the line-by-line state machine that groups the lines of a
    `.reg` export into key blocks. Its state is the list of folders built so
    far, the index `nextFileData` of the current block, and the flag
    `enterKeyReg` that says whether a block is open. */
module Parser {
  import opened Text
  import opened RegData
  import opened LineScan

  /** The locals `Parse` carries from one line to the next. */
  datatype ParseState = ParseState(folders: seq<RegFolder>, nextFileData: int, enterKeyReg: bool)

  const Initial: ParseState := ParseState([], 0, false)

  /** The block-count invariant: inside a block the current folder is the last
      one, outside a block every folder is closed. So `folders[nextFileData]` is
      in range whenever a block is open. */
  predicate Inv(st: ParseState) {
    0 <= st.nextFileData
    && |st.folders| == st.nextFileData + (if st.enterKeyReg then 1 else 0)
  }

  /** A line that opens a block: it starts with `[HKEY` and ends with `]`. */
  predicate IsKeyHeader(line: string)
  {
    StartsWith(line, "[HKEY") && EndsWith(line, "]")
  }

  /** A header line is at least six characters long, opens with `[` and closes
      with `]`, so it is neither blank nor an `@` line. */
  lemma KeyHeaderShape(line: string)
    requires IsKeyHeader(line)
    ensures 6 <= |line| && line[0] == '[' && line[|line| - 1] == ']'
    ensures !IsNullOrWhiteSpace(line) && !StartsWith(line, "@")
  {
    assert line[0] == line[..5][0] && line[4] == line[..5][4];
    assert line[|line| - 1] == line[|line| - 1..][0];
    assert !IsWhiteSpace(line[0]);
  }

  /** `folders[k].RegFile.Add(e)`: the folder keeps its key and gains `e` at
      the end of its entries; no other folder changes. */
  function AddEntry(folders: seq<RegFolder>, k: nat, e: RegFile): (r: seq<RegFolder>)
    requires k < |folders|
    ensures |r| == |folders|
    ensures r[k].keyPath == folders[k].keyPath && r[k].regFiles == folders[k].regFiles + [e]
    ensures forall j :: 0 <= j < |r| && j != k ==> r[j] == folders[j]
  {
    folders[k := folders[k].(regFiles := folders[k].regFiles + [e])]
  }

  /** `after` is `before` with at most one `REG_SZ` entry appended. */
  predicate AppendsAtMostOne(before: RegFolder, after: RegFolder) {
    after.keyPath == before.keyPath
    && before.regFiles <= after.regFiles
    && |after.regFiles| <= |before.regFiles| + 1
    && forall j :: |before.regFiles| <= j < |after.regFiles| ==> after.regFiles[j].regType == RegSz
  }

  /** One pass of the `for` loop of `Parse` over `line`. */
  ghost function Step(st: ParseState, line: string): (r: ParseState)
    requires Inv(st)
    ensures Inv(r)
    // a folder is opened exactly on a header met outside a block, keyed by the whole line
    ensures |r.folders| == |st.folders| + (if IsKeyHeader(line) && !st.enterKeyReg then 1 else 0)
    ensures |r.folders| > |st.folders| ==> r.folders[|st.folders|] == RegFolder(line, []) && r.enterKeyReg
    // opening a folder appends it and touches no existing folder
    ensures IsKeyHeader(line) && !st.enterKeyReg ==> r.folders == st.folders + [RegFolder(line, [])]
    // outside a block, every other line (the file header, blank lines) changes nothing
    ensures !st.enterKeyReg && !IsKeyHeader(line) ==> r == st
    // inside a block, a line that yields no pair or throws changes nothing
    ensures st.enterKeyReg && !IsNullOrWhiteSpace(line) && !EntryOf(line).Recorded? ==> r == st
    // a pair read inside a block goes to the current block, which stays open
    ensures st.enterKeyReg && !IsNullOrWhiteSpace(line) && EntryOf(line).Recorded? ==>
              r.enterKeyReg && r.nextFileData == st.nextFileData
              && r.folders[st.nextFileData].regFiles == st.folders[st.nextFileData].regFiles + [EntryOf(line).entry]
    // a blank line closes the block, adding the placeholder only to a block without pairs
    ensures st.enterKeyReg && IsNullOrWhiteSpace(line) ==>
              !r.enterKeyReg && r.nextFileData == st.nextFileData + 1
              && r.folders[st.nextFileData].regFiles
                 == (if st.folders[st.nextFileData].regFiles == [] then [DefaultEntry]
                     else st.folders[st.nextFileData].regFiles)
    // only the most recently opened folder changes, by at most one REG_SZ entry
    ensures forall k :: 0 <= k < |st.folders| - 1 ==> r.folders[k] == st.folders[k]
    ensures |st.folders| > 0 ==> AppendsAtMostOne(st.folders[|st.folders| - 1], r.folders[|st.folders| - 1])
  {
    if IsKeyHeader(line) && !st.enterKeyReg then
      ParseState(st.folders + [RegFolder(line, [])], st.nextFileData, true)
    else if !IsNullOrWhiteSpace(line) && st.enterKeyReg then
      match EntryOf(line)
      case Recorded(e) => st.(folders := AddEntry(st.folders, st.nextFileData, e))
      case _ => st
    else if IsNullOrWhiteSpace(line) && st.enterKeyReg then
      var folders :=
        if |st.folders[st.nextFileData].regFiles| == 0 then AddEntry(st.folders, st.nextFileData, DefaultEntry)
        else st.folders;
      ParseState(folders, st.nextFileData + 1, false)
    else
      st
  }

  /** A header line met while a block is open does not open a folder: it goes
      to the value reader, which finds no pair in a line without quotes, so the
      state is unchanged and the pairs that follow join the open block. */
  lemma HeaderInBlockIgnored(st: ParseState, line: string)
    requires Inv(st) && st.enterKeyReg && IsKeyHeader(line) && QuoteCount(line) < 2
    ensures Step(st, line) == st
  {
    KeyHeaderShape(line);
    UnquotedLineIgnored(line);
  }

  /** The state after the `for` loop has gone over every line of `lines`. */
  ghost function Run(st: ParseState, lines: seq<string>): (r: ParseState)
    requires Inv(st)
    ensures Inv(r)
    ensures |st.folders| <= |r.folders| <= |st.folders| + |lines|
    decreases |lines|
  {
    if lines == [] then st else Run(Step(st, lines[0]), lines[1..])
  }

  /** What the block structure promises of a state reached from the lines
      `seen`: every folder is keyed by a header line read from `seen`, every
      entry is typed `REG_SZ`, and every closed block holds at least one entry. */
  ghost predicate Sound(st: ParseState, seen: seq<string>) {
    Inv(st)
    && (forall k :: 0 <= k < |st.folders| ==> IsKeyHeader(st.folders[k].keyPath) && st.folders[k].keyPath in seen)
    && (forall k, j :: 0 <= k < |st.folders| && 0 <= j < |st.folders[k].regFiles| ==>
          st.folders[k].regFiles[j].regType == RegSz)
    && (forall k :: 0 <= k < st.nextFileData ==> st.folders[k].regFiles != [])
  }

  /** One line keeps a state sound, the line joining those seen. */
  lemma StepSound(st: ParseState, seen: seq<string>, line: string)
    requires Sound(st, seen)
    ensures Sound(Step(st, line), seen + [line])
  {
    var r := Step(st, line);
    assert forall x :: x in seen ==> x in seen + [line];
    if IsKeyHeader(line) && !st.enterKeyReg {
      assert r.folders == st.folders + [RegFolder(line, [])];
    } else if !IsNullOrWhiteSpace(line) && st.enterKeyReg {
      if EntryOf(line).Recorded? {
        assert r.folders == AddEntry(st.folders, st.nextFileData, EntryOf(line).entry);
      } else {
        assert r == st;
      }
    } else if IsNullOrWhiteSpace(line) && st.enterKeyReg {
      assert r.nextFileData == st.nextFileData + 1;
    } else {
      assert r == st;
    }
  }

  /** Any sequence of lines keeps a state sound. */
  lemma {:induction false} RunSound(st: ParseState, seen: seq<string>, lines: seq<string>)
    requires Sound(st, seen)
    ensures Sound(Run(st, lines), seen + lines)
    decreases |lines|
  {
    if lines != [] {
      StepSound(st, seen, lines[0]);
      RunSound(Step(st, lines[0]), seen + [lines[0]], lines[1..]);
      assert seen + [lines[0]] + lines[1..] == seen + lines;
    }
  }

  /** Running through a line and then the rest is one step, then the rest. */
  lemma RunCons(st: ParseState, line: string, rest: seq<string>)
    requires Inv(st)
    ensures Run(st, [line] + rest) == Run(Step(st, line), rest)
  {
    assert ([line] + rest)[1..] == rest;
  }

  /** The folders `Parse` returns for the lines of a file. The `for` loop
      starts with `string.Empty` before the first line read. */
  ghost function ParseResult(input: seq<string>): seq<RegFolder> {
    Run(Initial, [""] + input).folders
  }

  /** `Parser.Parse` over the lines of an already opened file. */
  method Parse(input: seq<string>) returns (folders: seq<RegFolder>)
    ensures folders == ParseResult(input)
    ensures forall k :: 0 <= k < |folders| ==> IsKeyHeader(folders[k].keyPath) && folders[k].keyPath in input
    ensures forall k, j :: 0 <= k < |folders| && 0 <= j < |folders[k].regFiles| ==>
              folders[k].regFiles[j].regType == RegSz
    ensures forall k :: 0 <= k < |folders| - 1 ==> folders[k].regFiles != []
  {
    var lines := [""] + input;
    folders := [];
    var nextFileData := 0;
    var enterKeyReg := false;
    var i := 0;
    while i < |lines|
      invariant 0 <= i <= |lines|
      invariant Inv(ParseState(folders, nextFileData, enterKeyReg))
      invariant Run(ParseState(folders, nextFileData, enterKeyReg), lines[i..]) == Run(Initial, lines)
    {
      ghost var before := ParseState(folders, nextFileData, enterKeyReg);
      var line := lines[i];
      assert lines[i..] == [line] + lines[i + 1..];
      RunCons(before, line, lines[i + 1..]);
      if IsKeyHeader(line) && !enterKeyReg {
        folders := folders + [RegFolder(line, [])];
        enterKeyReg := true;
      } else if !IsNullOrWhiteSpace(line) && enterKeyReg {
        var outcome := ReadEntry(line);
        if outcome.Recorded? {
          folders := folders[nextFileData := folders[nextFileData].(regFiles := folders[nextFileData].regFiles + [outcome.entry])];
        }
        // otherwise nothing was added, or the catch moved on to the next line
      } else if IsNullOrWhiteSpace(line) && enterKeyReg {
        if |folders[nextFileData].regFiles| == 0 {
          folders := folders[nextFileData := folders[nextFileData].(regFiles := folders[nextFileData].regFiles + [DefaultEntry])];
        }
        nextFileData := nextFileData + 1;
        enterKeyReg := false;
      }
      assert ParseState(folders, nextFileData, enterKeyReg) == Step(before, line);
      i := i + 1;
    }
    assert lines[i..] == [];
    RunSound(Initial, [], lines);
    assert Sound(Run(Initial, lines), lines);
  }
}
