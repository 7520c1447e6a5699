/**
 * The log parser of debug.py: an emulator log is split into lines, put
 * through filter_logfile (whose condition keeps every line), re-split, and
 * read two lines at a time into Instruction records. Each record needs a
 * register dump line, a mnemonic line and a third line that may hold an
 * error; parsing stops after the first record with a non-empty error.
 *
 * The three regular expressions are written out as predicates on the
 * position where re.search finds its leftmost match.
 */
module TraceParser {
  import opened CTypes
  import opened PyStr

  /** The Registers dataclass (field order as declared). */
  datatype Registers = Registers(af: int, bc: int, de: int, hl: int, pc: int, sp: int)

  /** An Instruction: the register dump, the mnemonic text, and the error text or None. */
  datatype Instruction = Instruction(regs: Registers, line: string, error: Option<string>)

  /** Python truthiness of an error: not None and not the empty string. */
  predicate Truthy(error: Option<string>)
  {
    error.Some? && error.value != ""
  }

  const DEBUG_TAG: string := "DEBUG: "
  const ERROR_TAG: string := "ERROR: "

  predicate IsLowerHex(c: char)
  {
    '0' <= c <= '9' || 'a' <= c <= 'f'
  }

  /** Four characters of `[0-9a-f]{4}` at position q. */
  predicate HexAt(s: string, q: nat)
  {
    q + 4 <= |s| && IsLowerHex(s[q]) && IsLowerHex(s[q + 1]) && IsLowerHex(s[q + 2]) && IsLowerHex(s[q + 3])
  }

  /** "DEBUG: " at position p, character by character. */
  predicate DebugTagAt(s: string, p: nat)
  {
    p + 7 <= |s| && s[p] == 'D' && s[p + 1] == 'E' && s[p + 2] == 'B' && s[p + 3] == 'U' &&
    s[p + 4] == 'G' && s[p + 5] == ':' && s[p + 6] == ' '
  }

  /** `XY=[0-9a-f]{4}` at position q, followed by ", " unless it is the last field. */
  predicate FieldAt(s: string, q: nat, x: char, y: char, last: bool)
  {
    q + 7 <= |s| && s[q] == x && s[q + 1] == y && s[q + 2] == '=' && HexAt(s, q + 3) &&
    (!last ==> q + 9 <= |s| && s[q + 7] == ',' && s[q + 8] == ' ')
  }

  /**
   * REGS_REGEX matches s at position p: "DEBUG: AF=hhhh, BC=hhhh, DE=hhhh,
   * HL=hhhh, SP=hhhh, PC=hhhh", 59 characters, the k-th register's digits
   * at p + 10 + 9k.
   */
  const REGS_LENGTH: nat := 59

  predicate RegsMatchAt(s: string, p: nat)
  {
    && p + REGS_LENGTH <= |s|
    && DebugTagAt(s, p)
    && FieldAt(s, p + 7, 'A', 'F', false)
    && FieldAt(s, p + 16, 'B', 'C', false)
    && FieldAt(s, p + 25, 'D', 'E', false)
    && FieldAt(s, p + 34, 'H', 'L', false)
    && FieldAt(s, p + 43, 'S', 'P', false)
    && FieldAt(s, p + 52, 'P', 'C', true)
  }

  /** The three patterns of debug.py. */
  datatype Pattern =
    | RegsPattern         // REGS_REGEX
    | InstructionPattern  // INSTRUCTION_REGEX: "DEBUG: ([^A].*)"
    | ErrorPattern        // ERROR_REGEX: "ERROR: (.*)"

  /** The pattern matches s starting at position p. */
  predicate MatchesAt(pat: Pattern, s: string, p: nat)
  {
    match pat
    case RegsPattern =>
      RegsMatchAt(s, p)
    case InstructionPattern =>
      // [^A] needs one more character, which may be anything but 'A'
      OccursAt(s, DEBUG_TAG, p) && p + 7 < |s| && s[p + 7] != 'A'
    case ErrorPattern =>
      OccursAt(s, ERROR_TAG, p)
  }

  /** re.search: the leftmost position from `from` on where the pattern matches. */
  function Search(pat: Pattern, s: string, from: nat): (r: Option<nat>)
    decreases |s| - from
    ensures r.Some? ==> from <= r.value <= |s| && MatchesAt(pat, s, r.value)
    ensures r.Some? ==> forall p :: from <= p < r.value ==> !MatchesAt(pat, s, p)
    ensures r.None? <==> forall p :: from <= p <= |s| ==> !MatchesAt(pat, s, p)
  {
    if from > |s| then None
    else if MatchesAt(pat, s, from) then Some(from)
    else Search(pat, s, from + 1)
  }

  /** The error pattern matches exactly where str.find locates "ERROR: ". */
  lemma {:induction false} ErrorSearchIsFind(s: string, from: nat)
    decreases |s| - from
    ensures Search(ErrorPattern, s, from) == (if FindFrom(s, ERROR_TAG, from) == -1 then None else Some(FindFrom(s, ERROR_TAG, from)))
  {
    if from <= |s| && !OccursAt(s, ERROR_TAG, from) {
      ErrorSearchIsFind(s, from + 1);
    }
  }

  /** `(.*)` after position q: the rest of the line up to the first "\n". */
  function RestOfLine(s: string, q: nat): (g: string)
    requires q <= |s|
    ensures forall i :: 0 <= i < |g| ==> g[i] != '\n'
    ensures q + |g| <= |s|
    ensures q + |g| < |s| ==> s[q + |g|] == '\n'
  {
    s[q..q + IndexOf(s[q..], '\n')]
  }

  /** The four digits of the k-th register in a REGS_REGEX match at p. */
  function HexField(s: string, p: nat, k: nat): (w: string)
    requires MatchesAt(RegsPattern, s, p) && k < 6
    ensures |w| == 4 && forall i :: 0 <= i < 4 ==> IsLowerHex(w[i])
  {
    var q := p + 10 + 9 * k;
    assert HexAt(s, q) by {
      if k == 0 {} else if k == 1 {} else if k == 2 {} else if k == 3 {} else if k == 4 {} else {}
    }
    s[q..q + 4]
  }

  /** int(w, 16) for four lowercase hex digits: always a number, and below 0x10000. */
  function HexValue(w: string): (v: int)
    requires |w| == 4 && forall i :: 0 <= i < 4 ==> IsLowerHex(w[i])
    ensures 0 <= v < 0x1_0000
    ensures ParseInt(w, 16) == Some(v)
  {
    FourHexDigits(w);
    ParseInt(w, 16).value
  }

  lemma FourHexDigits(w: string)
    requires |w| == 4 && forall i :: 0 <= i < 4 ==> IsLowerHex(w[i])
    ensures ParseInt(w, 16) == Some(DigitsValue(w, 16))
    ensures DigitsValue(w, 16) < 0x1_0000
  {
    assert forall i :: 0 <= i < 4 ==> 0 <= DigitValue(w[i], 16) < 16;
    StripNothing(w);
    assert SplitSign(w) == (false, w);
    assert StripBasePrefix(w, 16) == w;
    assert ValidDigits(w, 16);
    assert w[..3][..2][..1][..0] == [];
    assert w[..3][..2] == w[..2] && w[..2][..1] == w[..1];
    assert DigitsValue(w[..1], 16) < 16;
    assert DigitsValue(w[..2], 16) < 0x100;
    assert DigitsValue(w[..3], 16) < 0x1000;
    assert w[..4] == w;
  }

  /** The registers of a REGS_REGEX match at p (the regex order is af, bc, de, hl, sp, pc). */
  function RegsOf(s: string, p: nat): (regs: Registers)
    requires MatchesAt(RegsPattern, s, p)
    ensures RegistersInRange(regs)
  {
    Registers(
      af := HexValue(HexField(s, p, 0)),
      bc := HexValue(HexField(s, p, 1)),
      de := HexValue(HexField(s, p, 2)),
      hl := HexValue(HexField(s, p, 3)),
      pc := HexValue(HexField(s, p, 5)),
      sp := HexValue(HexField(s, p, 4)))
  }

  predicate RegistersInRange(regs: Registers)
  {
    0 <= regs.af < 0x1_0000 && 0 <= regs.bc < 0x1_0000 && 0 <= regs.de < 0x1_0000 &&
    0 <= regs.hl < 0x1_0000 && 0 <= regs.pc < 0x1_0000 && 0 <= regs.sp < 0x1_0000
  }

  /** The exceptions parse_instruction raises: ParsingError(line), or IndexError from lines[1] / lines[2]. */
  datatype ParseError = ParsingError(line: string) | IndexError

  datatype Parsed<T> = Ok(value: T) | Err(error: ParseError)

  /**
   * parse_instruction: lines[0] must contain a register dump and lines[1] a
   * mnemonic; lines[2] is then read for an optional error. Fewer lines than
   * the next one read is an IndexError.
   */
  function ParseInstruction(lines: seq<string>): (r: Parsed<Instruction>)
    ensures r.Ok? ==> |lines| >= 3 && RegistersInRange(r.value.regs)
  {
    if |lines| == 0 then Err(IndexError)
    else match Search(RegsPattern, lines[0], 0)
      case None => Err(ParsingError(lines[0]))
      case Some(rp) =>
        if |lines| < 2 then Err(IndexError)
        else match Search(InstructionPattern, lines[1], 0)
          case None => Err(ParsingError(lines[1]))
          case Some(mp) =>
            if |lines| < 3 then Err(IndexError)
            else
              var error := match Search(ErrorPattern, lines[2], 0)
                case None => None
                case Some(ep) => Some(RestOfLine(lines[2], ep + |ERROR_TAG|));
              // [^A] takes any character but 'A', a newline included; `.*` then stops at one.
              var mnemonic := [lines[1][mp + |DEBUG_TAG|]] + RestOfLine(lines[1], mp + |DEBUG_TAG| + 1);
              Ok(Instruction(RegsOf(lines[0], rp), mnemonic, error))
  }

  /**
   * When parse_instruction succeeds and which exception it raises otherwise;
   * on success the error is the rest of the line after the first "ERROR: ",
   * and None when lines[2] has none.
   */
  lemma ParseInstructionOutcome(lines: seq<string>)
    ensures ParseInstruction(lines).Ok? <==>
      |lines| >= 3 && Search(RegsPattern, lines[0], 0).Some? && Search(InstructionPattern, lines[1], 0).Some?
    ensures |lines| > 0 && Search(RegsPattern, lines[0], 0).None? ==>
      ParseInstruction(lines) == Err(ParsingError(lines[0]))
    ensures |lines| > 1 && Search(RegsPattern, lines[0], 0).Some? && Search(InstructionPattern, lines[1], 0).None? ==>
      ParseInstruction(lines) == Err(ParsingError(lines[1]))
    ensures |lines| < 3 ==> ParseInstruction(lines).Err?
    ensures ParseInstruction(lines).Ok? ==>
      var e := ParseInstruction(lines).value.error;
      var at := Find(lines[2], ERROR_TAG);
      && (e.Some? <==> at != -1)
      && (e.Some? ==> e.value == RestOfLine(lines[2], at + |ERROR_TAG|))
  {
    if |lines| >= 3 {
      ErrorSearchIsFind(lines[2], 0);
    }
  }

  /**
   * What a successful parse_instruction holds: each register is int(_, 16)
   * of the four digits after its name in the register dump (SP's group
   * comes before PC's), and the mnemonic is the character after the first
   * "DEBUG: " not followed by 'A', then the rest of that line.
   */
  lemma ParseInstructionContents(lines: seq<string>)
    ensures ParseInstruction(lines).Ok? ==>
      var line := lines[0];
      var rp := Search(RegsPattern, line, 0).value;
      var mp := Search(InstructionPattern, lines[1], 0).value;
      var v := ParseInstruction(lines).value;
      && RegsMatchAt(line, rp)
      && ParseInt(line[rp + 10..rp + 14], 16) == Some(v.regs.af)
      && ParseInt(line[rp + 19..rp + 23], 16) == Some(v.regs.bc)
      && ParseInt(line[rp + 28..rp + 32], 16) == Some(v.regs.de)
      && ParseInt(line[rp + 37..rp + 41], 16) == Some(v.regs.hl)
      && ParseInt(line[rp + 46..rp + 50], 16) == Some(v.regs.sp)
      && ParseInt(line[rp + 55..rp + 59], 16) == Some(v.regs.pc)
      && mp + |DEBUG_TAG| < |lines[1]| && lines[1][mp + |DEBUG_TAG|] != 'A'
      && v.line == [lines[1][mp + |DEBUG_TAG|]] + RestOfLine(lines[1], mp + |DEBUG_TAG| + 1)
  {
  }

  // ---------- filter_logfile ----------

  /** The comprehension's condition: `row.find("DEBUG: ") or row.find("ERROR: ")`. */
  predicate Kept(row: string)
  {
    Find(row, DEBUG_TAG) != 0 || Find(row, ERROR_TAG) != 0
  }

  /** Rather than keeping tagged lines, the condition keeps every line: no line starts with both tags. */
  lemma AllKept(row: string)
    ensures Kept(row)
  {
    FindZero(row, DEBUG_TAG);
    FindZero(row, ERROR_TAG);
    if Find(row, DEBUG_TAG) == 0 {
      assert row[0] == 'D';
    }
  }

  function FilterRows(rows: seq<string>): (r: seq<string>)
  {
    if rows == [] then []
    else (if Kept(rows[0]) then [rows[0]] else []) + FilterRows(rows[1..])
  }

  lemma {:induction false} FilterKeepsAll(rows: seq<string>)
    ensures FilterRows(rows) == rows
  {
    if rows != [] {
      AllKept(rows[0]);
      FilterKeepsAll(rows[1..]);
    }
  }

  /** filter_logfile: the kept lines joined with "\n". */
  function FilterLogfile(logfile: string): string
  {
    JoinLines(FilterRows(SplitLines(logfile)))
  }

  /** The lines parse_logfile works on are the lines of the log, less a last empty line. */
  lemma FilteredLines(logfile: string)
    ensures SplitLines(FilterLogfile(logfile)) == DropTrailingEmpty(SplitLines(logfile))
  {
    FilterKeepsAll(SplitLines(logfile));
    SplitLinesJoin(SplitLines(logfile));
  }

  // ---------- parse_logfile ----------

  /** pre + the records of a successful parse; a failure stays a failure. */
  function Prepend(pre: seq<Instruction>, r: Parsed<seq<Instruction>>): Parsed<seq<Instruction>>
  {
    match r
    case Ok(records) => Ok(pre + records)
    case Err(e) => Err(e)
  }

  /**
   * The records the loop of parse_logfile builds from lines i, i + 2, ...
   * with `parse` reading one record: it stops after the first record with
   * a truthy error, and passes an exception through.
   */
  function ParseEach(parse: seq<string> -> Parsed<Instruction>, filtered: seq<string>, i: nat): Parsed<seq<Instruction>>
    decreases |filtered| - i
  {
    if i >= |filtered| then Ok([])
    else match parse(filtered[i..])
      case Err(e) => Err(e)
      case Ok(record) =>
        if Truthy(record.error) then Ok([record]) else Prepend([record], ParseEach(parse, filtered, i + 2))
  }

  /** The records parse_logfile builds from filtered lines i, i + 2, ... */
  function ParseFrom(filtered: seq<string>, i: nat): Parsed<seq<Instruction>>
  {
    ParseEach(ParseInstruction, filtered, i)
  }

  /** parse_logfile (a ParsingError or IndexError escapes it). */
  method ParseLogfile(logfile: string) returns (r: Parsed<seq<Instruction>>)
    ensures r == ParseFrom(SplitLines(FilterLogfile(logfile)), 0)
  {
    var result: seq<Instruction> := [];
    var filtered := SplitLines(FilterLogfile(logfile));
    var i := 0;
    assert Prepend([], ParseFrom(filtered, 0)) == ParseFrom(filtered, 0) by {
      PrependEmpty(ParseFrom(filtered, 0));
    }
    while i < |filtered|
      invariant Prepend(result, ParseFrom(filtered, i)) == ParseFrom(filtered, 0)
    {
      var parsed := ParseInstruction(filtered[i..]);
      if parsed.Err? {
        assert ParseFrom(filtered, i) == Err(parsed.error);
        return Err(parsed.error);
      }
      var before := result;
      result := result + [parsed.value];
      if Truthy(result[|result| - 1].error) {
        assert ParseFrom(filtered, i) == Ok([parsed.value]);
        return Ok(result);
      }
      assert ParseFrom(filtered, i) == Prepend([parsed.value], ParseFrom(filtered, i + 2));
      PrependAssoc(before, [parsed.value], ParseFrom(filtered, i + 2));
      i := i + 2;
    }
    assert result + [] == result;
    return Ok(result);
  }

  lemma PrependEmpty(r: Parsed<seq<Instruction>>)
    ensures Prepend([], r) == r
  {
    if r.Ok? {
      assert [] + r.value == r.value;
    }
  }

  lemma PrependAssoc(a: seq<Instruction>, b: seq<Instruction>, r: Parsed<seq<Instruction>>)
    ensures Prepend(a, Prepend(b, r)) == Prepend(a + b, r)
  {
    if r.Ok? {
      assert a + (b + r.value) == (a + b) + r.value;
    }
  }

  /**
   * A successful parse from line i is empty exactly when no lines are left;
   * otherwise every record but the last has a falsy error and the last one
   * has a truthy error: the loop can only run out of lines while an
   * IndexError or ParsingError is raised.
   */
  lemma {:induction false} ParseEachEnds(parse: seq<string> -> Parsed<Instruction>, filtered: seq<string>, i: nat)
    decreases |filtered| - i
    requires forall lines :: parse(lines).Ok? ==> |lines| >= 3
    requires ParseEach(parse, filtered, i).Ok?
    ensures var records := ParseEach(parse, filtered, i).value;
      && (records == [] <==> i >= |filtered|)
      && (records != [] ==> Truthy(records[|records| - 1].error))
      && (forall k :: 0 <= k < |records| - 1 ==> !Truthy(records[k].error))
  {
    if i < |filtered| {
      var record := parse(filtered[i..]).value;
      if !Truthy(record.error) {
        assert i + 2 < |filtered|;
        ParseEachEnds(parse, filtered, i + 2);
        var rest := ParseEach(parse, filtered, i + 2).value;
        var records := ParseEach(parse, filtered, i).value;
        assert records == [record] + rest;
        assert records[|records| - 1] == rest[|rest| - 1];
        forall k | 1 <= k < |records| - 1
          ensures !Truthy(records[k].error)
        {
          assert records[k] == rest[k - 1];
        }
      }
    }
  }

  /** Record k of a successful parse from line i is what `parse` reads from line i + 2k on. */
  lemma {:induction false} ParseEachRecords(parse: seq<string> -> Parsed<Instruction>, filtered: seq<string>, i: nat)
    decreases |filtered| - i
    requires ParseEach(parse, filtered, i).Ok?
    ensures var records := ParseEach(parse, filtered, i).value;
      forall k :: 0 <= k < |records| ==>
        i + 2 * k < |filtered| && parse(filtered[i + 2 * k..]) == Ok(records[k])
  {
    if i < |filtered| {
      var record := parse(filtered[i..]).value;
      if !Truthy(record.error) {
        ParseEachRecords(parse, filtered, i + 2);
        var rest := ParseEach(parse, filtered, i + 2).value;
        var records := ParseEach(parse, filtered, i).value;
        assert records == [record] + rest;
        forall k | 1 <= k < |records|
          ensures i + 2 * k < |filtered| && parse(filtered[i + 2 * k..]) == Ok(records[k])
        {
          assert records[k] == rest[k - 1];
          assert i + 2 + 2 * (k - 1) == i + 2 * k;
        }
      }
    }
  }

  /** What parse_logfile returns, stated on the log's own lines. */
  lemma ParseLogfileShape(logfile: string)
    requires ParseFrom(SplitLines(FilterLogfile(logfile)), 0).Ok?
    ensures var records := ParseFrom(SplitLines(FilterLogfile(logfile)), 0).value;
      var lines := DropTrailingEmpty(SplitLines(logfile));
      && (records == [] <==> lines == [])
      && (records != [] ==> Truthy(records[|records| - 1].error))
      && (forall k :: 0 <= k < |records| - 1 ==> !Truthy(records[k].error))
      && (forall k :: 0 <= k < |records| ==> 2 * k < |lines| && ParseInstruction(lines[2 * k..]) == Ok(records[k]))
  {
    FilteredLines(logfile);
    ParseEachEnds(ParseInstruction, SplitLines(FilterLogfile(logfile)), 0);
    ParseEachRecords(ParseInstruction, SplitLines(FilterLogfile(logfile)), 0);
  }
}
