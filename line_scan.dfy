/** What the body of the `try` block in `Parser.Parse` makes of one non-blank
    line read inside a key block: at most one `RegFile` pair, or nothing, or an
    exception that the `catch` turns into "skip this line". */
module LineScan {
  import opened Text
  import opened RegData

  /** The outcome of the `try` block for one line. `Skipped` stands for the
      exception (an index past the end of the line or of the split result)
      that the `catch` answers with `continue`. */
  datatype LineOutcome = Recorded(entry: RegFile) | NoPair | Skipped

  /** The separator a quoted name is split on. */
  const QuoteEquals: string := "\"="

  /** The separator an `@` line is split on. */
  const EqualsSign: string := "="

  /** The number of `"` characters in `s`. */
  function QuoteCount(s: string): nat {
    if |s| == 0 then 0
    else QuoteCount(s[..|s| - 1]) + (if s[|s| - 1] == '"' then 1 else 0)
  }

  /** While scanning, the quote counter is 2 at position `i`. */
  predicate InQuoteWindow(line: string, i: int) {
    0 <= i < |line| && QuoteCount(line[..i + 1]) == 2
  }

  /** The characters that may follow `"=` for a pair to be taken: the opening
      quote of a string, or the `d`, `q`, `h` of `dword:`, `qword:`, `hex...:`. */
  predicate IsValueStart(c: char) {
    c == '"' || c == 'd' || c == 'q' || c == 'h'
  }

  /** The three characters from position `i` are `"`, `=` and a value start. */
  predicate PairAt(line: string, i: int) {
    0 <= i && i + 2 < |line| && line[i] == '"' && line[i + 1] == '=' && IsValueStart(line[i + 2])
  }

  /** Position `q` holds the second `"` of the line. */
  predicate IsSecondQuote(line: string, q: int) {
    0 <= q < |line| && line[q] == '"' && QuoteCount(line[..q]) == 1
  }

  /** `splitLine = line.Split(sep)` followed by
      `new RegFile(splitLine[0], "REG_SZ", splitLine[1])`: without a second piece
      the index throws and the line is skipped. The line is skipped exactly when
      `sep` does not occur in it; otherwise the pair is the first two pieces. */
  function SplitEntry(line: string, sep: string): (r: LineOutcome)
    requires |sep| > 0
    ensures r.Skipped? <==> !Contains(line, sep)
    ensures r.Recorded? ==> r.entry.regType == RegSz && FirstTwoPieces(line, sep, r.entry.name, r.entry.data)
    ensures !r.NoPair?
  {
    SplitHasSecondPiece(line, sep);
    var splitLine := Split(line, sep);
    if |splitLine| < 2 then Skipped
    else
      SplitGivesFirstTwo(line, sep);
      Recorded(RegFile(splitLine[0], RegSz, splitLine[1]))
  }

  /** The character scan over a line that does not start with `@`, stated by
      what it meets rather than by its steps. At every position where the quote
      counter is 2 it reads the two characters that follow, so any such position
      within two characters of the end throws; a pair is taken at the first such
      position if the three characters there are `"`, `=` and a value start. */
  ghost function QuotedLineOutcome(line: string): (r: LineOutcome)
    ensures r.Recorded? ==> r.entry.regType == RegSz && FirstTwoPieces(line, QuoteEquals, r.entry.name, r.entry.data)
  {
    if exists i :: InQuoteWindow(line, i) && PairAt(line, i) then SplitEntry(line, QuoteEquals)
    else if exists i :: InQuoteWindow(line, i) && |line| <= i + 2 then Skipped
    else NoPair
  }

  /** The outcome of the `try` block for `line`: a recorded pair is always
      typed `REG_SZ` and is the first two pieces of the split the line's kind
      selects, and an `@` line never ends without either a pair or a throw. */
  ghost function EntryOf(line: string): (r: LineOutcome)
    ensures r.Recorded? ==> r.entry.regType == RegSz
    ensures StartsWith(line, "@") ==> !r.NoPair?
  {
    if StartsWith(line, "@") then SplitEntry(line, EqualsSign) else QuotedLineOutcome(line)
  }

  lemma QuoteCountStep(line: string, k: nat)
    requires k < |line|
    ensures QuoteCount(line[..k + 1]) == QuoteCount(line[..k]) + (if line[k] == '"' then 1 else 0)
  {
    assert line[..k + 1][..k] == line[..k];
  }

  lemma {:induction false} QuoteCountMono(line: string, a: nat, b: nat)
    requires a <= b <= |line|
    ensures QuoteCount(line[..a]) <= QuoteCount(line[..b])
    decreases b - a
  {
    if a < b {
      QuoteCountMono(line, a, b - 1);
      QuoteCountStep(line, b - 1);
    }
  }

  /** A position in the window that holds a quote is the second quote, and no
      earlier position is in the window. */
  lemma WindowQuoteIsSecond(line: string, q: int)
    requires InQuoteWindow(line, q) && line[q] == '"'
    ensures IsSecondQuote(line, q)
    ensures forall i :: 0 <= i < q ==> !InQuoteWindow(line, i)
  {
    QuoteCountStep(line, q);
    forall i | 0 <= i < q
      ensures !InQuoteWindow(line, i)
    {
      QuoteCountMono(line, i + 1, q);
    }
  }

  /** A `"=` at the second quote guarantees the split has a second piece. */
  lemma PairSplits(line: string, q: int)
    requires PairAt(line, q)
    ensures |Split(line, QuoteEquals)| >= 2
  {
    assert line[q..q + 2] == QuoteEquals;
    assert OccursAt(line, QuoteEquals, q);
    SplitHasSecondPiece(line, QuoteEquals);
  }

  /** The `try` block: an `@` line is split on `=`; any other line is scanned
      character by character, counting quotes, until a pair is taken. */
  method ReadEntry(line: string) returns (outcome: LineOutcome)
    ensures outcome == EntryOf(line)
  {
    if !StartsWith(line, "@") {
      var semicolon := 0;
      var singCount := -1;
      outcome := NoPair;
      var k := 0;
      while k < |line|
        invariant 0 <= k <= |line|
        invariant singCount == k - 1
        invariant semicolon == QuoteCount(line[..k])
        invariant outcome == NoPair
        invariant forall j :: 0 <= j < k && InQuoteWindow(line, j) ==> j + 2 < |line| && !PairAt(line, j)
      {
        var sing := line[k];
        singCount := singCount + 1;
        QuoteCountStep(line, k);
        if sing == '"' {
          semicolon := semicolon + 1;
        }
        if semicolon == 2 {
          if |line| <= singCount + 2 {
            // reading line[singCount + 1] or line[singCount + 2] throws
            forall j | 0 <= j < |line| && InQuoteWindow(line, j) && PairAt(line, j)
              ensures false
            {
              WindowQuoteIsSecond(line, j);
            }
            assert InQuoteWindow(line, k) && |line| <= k + 2;
            outcome := Skipped;
            break;
          }
          var c1, c2, c3 := line[singCount], line[singCount + 1], line[singCount + 2];
          if (c1 == '"' && c2 == '=' && c3 == '"') || (c1 == '"' && c2 == '=' && (c3 == 'd' || c3 == 'q' || c3 == 'h')) {
            assert InQuoteWindow(line, k) && PairAt(line, k);
            PairSplits(line, k);
            var splitLine := Split(line, QuoteEquals);
            outcome := Recorded(RegFile(splitLine[0], RegSz, splitLine[1]));
            break;
          }
        }
        k := k + 1;
      }
      if outcome == NoPair {
        assert forall j :: InQuoteWindow(line, j) ==> j + 2 < |line| && !PairAt(line, j);
      }
    } else {
      var splitLine := Split(line, EqualsSign);
      if |splitLine| < 2 {
        // splitLine[1] throws
        outcome := Skipped;
      } else {
        outcome := Recorded(RegFile(splitLine[0], RegSz, splitLine[1]));
      }
    }
  }

  lemma SecondQuoteInWindow(line: string, q: int)
    requires IsSecondQuote(line, q)
    ensures InQuoteWindow(line, q)
  {
    QuoteCountStep(line, q);
  }

  /** A line that does not start with `@` yields the pair (`name`, `data`)
      exactly when its second `"` is followed by `=` and a value start, and
      `name` and `data` are the first two pieces of the line split on `"=`:
      the text before the first `"=`, and the text from there to the next. */
  lemma QuotedLineRecorded(line: string, name: string, data: string)
    requires !StartsWith(line, "@")
    ensures EntryOf(line) == Recorded(RegFile(name, RegSz, data))
            <==> (exists q :: IsSecondQuote(line, q) && PairAt(line, q))
                 && FirstTwoPieces(line, QuoteEquals, name, data)
  {
    SplitFirstTwo(line, QuoteEquals, name, data);
    if EntryOf(line) == Recorded(RegFile(name, RegSz, data)) {
      var i :| InQuoteWindow(line, i) && PairAt(line, i);
      WindowQuoteIsSecond(line, i);
    }
    if exists q :: IsSecondQuote(line, q) && PairAt(line, q) {
      var q :| IsSecondQuote(line, q) && PairAt(line, q);
      SecondQuoteInWindow(line, q);
      PairSplits(line, q);
    }
  }

  /** When the second `"` is one of the last two characters, the lookahead
      past it runs off the line and the line is skipped. */
  lemma QuotedLineOverrun(line: string, q: int)
    requires !StartsWith(line, "@") && IsSecondQuote(line, q) && |line| <= q + 2
    ensures EntryOf(line) == Skipped
  {
    SecondQuoteInWindow(line, q);
    forall i | InQuoteWindow(line, i) && PairAt(line, i)
      ensures false
    {
      WindowQuoteIsSecond(line, i);
      if i < q {
        WindowQuoteIsSecond(line, q);
      }
    }
  }

  /** Once the second `"` is not followed by a pair, the lookahead still runs at
      every later position until the third `"`: the line is skipped exactly when
      it has no third `"` or its third `"` is its last character, and otherwise
      yields no pair. */
  lemma QuotedLineSkipped(line: string, q: int)
    requires !StartsWith(line, "@") && IsSecondQuote(line, q) && !PairAt(line, q)
    ensures EntryOf(line) == Skipped
            <==> QuoteCount(line) == 2 || (QuoteCount(line) == 3 && line[|line| - 1] == '"')
    ensures EntryOf(line) != Skipped ==> EntryOf(line) == NoPair
  {
    assert EntryOf(line) == QuotedLineOutcome(line);
    NoPairPastSecond(line, q);
    WindowReachesEnd(line, q);
    if exists i :: InQuoteWindow(line, i) && |line| <= i + 2 {
      assert QuotedLineOutcome(line) == Skipped;
    } else {
      assert QuotedLineOutcome(line) == NoPair;
    }
  }

  /** Only the second `"` can start a pair, so none does when it does not. */
  lemma NoPairPastSecond(line: string, q: int)
    requires IsSecondQuote(line, q) && !PairAt(line, q)
    ensures !exists i :: InQuoteWindow(line, i) && PairAt(line, i)
  {
    SecondQuoteInWindow(line, q);
    WindowQuoteIsSecond(line, q);
    forall i | InQuoteWindow(line, i) && PairAt(line, i)
      ensures false
    {
      WindowQuoteIsSecond(line, i);
    }
  }

  /** The quote counter is still 2 at one of the last two positions exactly when
      the line has two `"`, or three with the third one last. */
  lemma WindowReachesEnd(line: string, q: int)
    requires IsSecondQuote(line, q)
    ensures (exists i :: InQuoteWindow(line, i) && |line| <= i + 2)
            <==> QuoteCount(line) == 2 || (QuoteCount(line) == 3 && line[|line| - 1] == '"')
  {
    var n := |line|;
    var whole := QuoteCount(line);
    var init := QuoteCount(line[..n - 1]);
    assert line[..n] == line;
    QuoteCountStep(line, n - 1);
    assert whole == init + (if line[n - 1] == '"' then 1 else 0);
    if whole == 2 {
      assert InQuoteWindow(line, n - 1);
    } else if whole == 3 && line[n - 1] == '"' {
      assert n - 1 != q by { QuoteCountStep(line, q); }
      assert InQuoteWindow(line, n - 2);
    }
  }

  /** A line without `"` has a quote count of zero. */
  lemma {:induction false} QuoteFreeCount(s: string)
    requires forall i :: 0 <= i < |s| ==> s[i] != '"'
    ensures QuoteCount(s) == 0
    decreases |s|
  {
    if |s| > 0 {
      QuoteFreeCount(s[..|s| - 1]);
    }
  }

  /** A line with fewer than two `"` never yields a pair and never throws. */
  lemma UnquotedLineIgnored(line: string)
    requires !StartsWith(line, "@") && QuoteCount(line) < 2
    ensures EntryOf(line) == NoPair
  {
    assert line[..|line|] == line;
    forall i | InQuoteWindow(line, i)
      ensures false
    {
      QuoteCountMono(line, i + 1, |line|);
    }
  }

  /** An `@` line yields the pair (`name`, `data`) exactly when they are the
      text before the first `=` and the text from there to the next `=` or the
      end; a line without `=` is skipped. */
  lemma AtLineRecorded(line: string, name: string, data: string)
    requires StartsWith(line, "@")
    ensures EntryOf(line) == Recorded(RegFile(name, RegSz, data))
            <==> FirstTwoPieces(line, EqualsSign, name, data)
    ensures EntryOf(line) == Skipped <==> !Contains(line, EqualsSign)
    ensures !EntryOf(line).NoPair?
  {
    SplitFirstTwo(line, EqualsSign, name, data);
    SplitHasSecondPiece(line, EqualsSign);
  }
}
