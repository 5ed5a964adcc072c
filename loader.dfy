/** Loading a machine-code file into memory. Each line must have the form
    `ram[<decimal address>] = 16'b<binary word>;` followed by anything up to the
    end of the line; addresses must count up from 0 without gaps, and must fit in
    memory. The first offending line stops the load. */
module E20Loader {

  // ---------------------------------------------------------------------------
  // Numerals

  predicate IsDigit(c: char)
  {
    '0' <= c <= '9'
  }

  /** The value of a decimal digit. */
  function DigitValue(c: char): (d: nat)
    requires IsDigit(c)
    ensures d < 10
  {
    c as int - '0' as int
  }

  /** A non-empty run of decimal digits, what `\d+` matches. */
  predicate IsDigits(s: string)
  {
    |s| > 0 && forall i :: 0 <= i < |s| ==> IsDigit(s[i])
  }

  /** A non-empty string of 0s and 1s, what `int(s, 2)` accepts among digit runs. */
  predicate IsBinary(s: string)
  {
    |s| > 0 && forall i :: 0 <= i < |s| ==> s[i] == '0' || s[i] == '1'
  }

  /** `int(s, 10)` of a digit run, read most significant digit first. */
  function DecimalValue(s: string): (v: nat)
    requires forall i :: 0 <= i < |s| ==> IsDigit(s[i])
    decreases |s|
  {
    if |s| == 0 then 0 else 10 * DecimalValue(s[..|s| - 1]) + DigitValue(s[|s| - 1])
  }

  /** `int(s, 2)` of a string of 0s and 1s. */
  function BinaryValue(s: string): (v: nat)
    requires forall i :: 0 <= i < |s| ==> s[i] == '0' || s[i] == '1'
    decreases |s|
  {
    if |s| == 0 then 0 else 2 * BinaryValue(s[..|s| - 1]) + (if s[|s| - 1] == '1' then 1 else 0)
  }

  // ---------------------------------------------------------------------------
  // One line

  /** What the loader makes of one line: an address and a word, a line the
      pattern does not match, or a matching line whose word has a digit other
      than 0 and 1 (so that `int(instr, 2)` fails). */
  datatype ParsedLine = Word(addr: nat, instr: nat) | NoMatch | NotBinary

  /** The number of consecutive digits in `s` from position `i` on. */
  function DigitRun(s: string, i: nat): (n: nat)
    requires i <= |s|
    ensures i + n <= |s|
    ensures forall k :: i <= k < i + n ==> IsDigit(s[k])
    ensures i + n < |s| ==> !IsDigit(s[i + n])
    decreases |s| - i
  {
    if i < |s| && IsDigit(s[i]) then 1 + DigitRun(s, i + 1) else 0
  }

  /** `.*$` matches the rest of a line exactly when it has no line break, except
      possibly one as its last character. */
  predicate RestOfLine(rest: string)
  {
    forall i :: 0 <= i < |rest| - 1 ==> rest[i] != '\n'
  }

  const Prefix: string := "ram["
  const Middle: string := "] = 16'b"

  /** The text of a line with the given address digits, word digits and trailer. */
  function Layout(addrDigits: string, wordDigits: string, rest: string): (line: string)
  {
    Prefix + (addrDigits + (Middle + (wordDigits + (";" + rest))))
  }

  /** The two groups a match of the line pattern captures, as text. */
  datatype Groups = Groups(addrDigits: string, wordDigits: string)

  /** Matching a line against `^ram\[(\d+)\] = 16'b(\d+);.*$`. Neither group can
      extend past its digits, so the match is decided left to right: first the
      literal prefix, then the address group and the text after it, then the word
      group, the semicolon and the rest of the line. */
  function MatchLine(line: string): (m: Option<Groups>)
  {
    if |line| >= |Prefix| && line[..|Prefix|] == Prefix then MatchAddress(line[|Prefix|..]) else None
  }

  function MatchAddress(s: string): (m: Option<Groups>)
  {
    var n := DigitRun(s, 0);
    if n > 0 && |s| >= n + |Middle| && s[n..n + |Middle|] == Middle then MatchWord(s[..n], s[n + |Middle|..])
    else None
  }

  function MatchWord(addrDigits: string, s: string): (m: Option<Groups>)
  {
    var n := DigitRun(s, 0);
    if n > 0 && n < |s| && s[n] == ';' && RestOfLine(s[n + 1..]) then Some(Groups(addrDigits, s[..n]))
    else None
  }

  /** The loader's reading of a line: the match, then `int(addr, 10)` and
      `int(instr, 2)` of the two groups. */
  function ParseLine(line: string): (r: ParsedLine)
  {
    match MatchLine(line)
    case None => NoMatch
    case Some(g) =>
      if !IsBinary(g.wordDigits) then NotBinary
      else Word(DecimalValue(g.addrDigits), BinaryValue(g.wordDigits))
  }

  /** A run of digits followed by a non-digit (or by nothing) is what `DigitRun`
      counts from its start. */
  lemma DigitRunOfDigits(digits: string, tail: string)
    requires IsDigits(digits) && (|tail| > 0 ==> !IsDigit(tail[0]))
    ensures DigitRun(digits + tail, 0) == |digits|
    ensures (digits + tail)[..|digits|] == digits && (digits + tail)[|digits|..] == tail
  {
    DigitRunExactly(digits + tail, 0, |digits|);
  }

  /** A run of `n` digits followed by a non-digit (or the end) has length `n`. */
  lemma {:induction false} DigitRunExactly(s: string, i: nat, n: nat)
    requires i + n <= |s|
    requires forall k :: i <= k < i + n ==> IsDigit(s[k])
    requires i + n < |s| ==> !IsDigit(s[i + n])
    ensures DigitRun(s, i) == n
    decreases n
  {
    if n > 0 {
      DigitRunExactly(s, i + 1, n - 1);
    }
  }

  /** A line laid out as the pattern expects is read back as its address and word. */
  lemma ParseLayout(addrDigits: string, wordDigits: string, rest: string)
    requires IsDigits(addrDigits) && IsBinary(wordDigits) && RestOfLine(rest)
    ensures ParseLine(Layout(addrDigits, wordDigits, rest)) == Word(DecimalValue(addrDigits), BinaryValue(wordDigits))
  {
    var t3 := ";" + rest;
    var t2 := wordDigits + t3;
    var t1 := Middle + t2;
    var t0 := addrDigits + t1;
    assert (Prefix + t0)[..|Prefix|] == Prefix && (Prefix + t0)[|Prefix|..] == t0;
    DigitRunOfDigits(addrDigits, t1);
    assert t1[..|Middle|] == Middle && t1[|Middle|..] == t2;
    assert t0[|addrDigits|..|addrDigits| + |Middle|] == Middle;
    DigitRunOfDigits(wordDigits, t3);
    assert t3[1..] == rest;
    assert MatchWord(addrDigits, t2) == Some(Groups(addrDigits, wordDigits));
  }

  /** Conversely, every line the loader accepts is laid out as the pattern says. */
  lemma ParsedLineHasLayout(line: string)
    requires ParseLine(line).Word?
    ensures exists addrDigits, wordDigits, rest ::
      IsDigits(addrDigits) && IsBinary(wordDigits) && RestOfLine(rest) &&
      line == Layout(addrDigits, wordDigits, rest) &&
      ParseLine(line) == Word(DecimalValue(addrDigits), BinaryValue(wordDigits))
  {
    var t0 := line[|Prefix|..];
    var a := DigitRun(t0, 0);
    var t1 := t0[a..];
    var t2 := t1[|Middle|..];
    var w := DigitRun(t2, 0);
    var t3 := t2[w..];
    var addrDigits, wordDigits, rest := t0[..a], t2[..w], t3[1..];
    assert t3 == ";" + rest;
    assert t2 == wordDigits + t3;
    assert t1 == Middle + t2;
    assert t0 == addrDigits + t1;
    assert line == Prefix + t0;
    assert line == Layout(addrDigits, wordDigits, rest);
    assert MatchLine(line) == MatchAddress(t0) == MatchWord(addrDigits, t2) == Some(Groups(addrDigits, wordDigits));
    assert IsDigits(addrDigits) && IsBinary(wordDigits) && RestOfLine(rest);
    assert ParseLine(line) == Word(DecimalValue(addrDigits), BinaryValue(wordDigits));
  }

  // ---------------------------------------------------------------------------
  // The whole file

  /** Why a load stops. The offending line is the one at the failure index. */
  datatype LoadError =
    | CannotParse                 // the line does not match the pattern
    | BadBinaryWord               // the word has a digit other than 0 and 1
    | OutOfSequence(addr: nat)    // the address is not the next one expected
    | TooBig                      // the address is past the end of memory

  /** A load either takes every line, or stops at the line with index `at`. */
  datatype LoadResult = Loaded(count: nat) | Failed(at: nat, error: LoadError)

  datatype Option<T> = None | Some(value: T)

  /** Every line of a file, as the loader reads it (a helper for the proofs; its
      ensures only spells out the comprehension). */
  function ParseAll(lines: seq<string>): (parsed: seq<ParsedLine>)
    ensures |parsed| == |lines| && forall i :: 0 <= i < |lines| ==> parsed[i] == ParseLine(lines[i])
  {
    seq(|lines|, i requires 0 <= i < |lines| => ParseLine(lines[i]))
  }

  /** The check made on the line that should hold address `expected`; `None` if
      it is accepted. The sequence check comes before the size check. */
  function CheckLine(line: ParsedLine, expected: nat, capacity: nat): (e: Option<LoadError>)
  {
    match line
    case NoMatch => Some(CannotParse)
    case NotBinary => Some(BadBinaryWord)
    case Word(addr, _) =>
      if addr != expected then Some(OutOfSequence(addr))
      else if addr >= capacity then Some(TooBig)
      else None
  }

  /** The outcome of loading the parsed lines of a file into a memory of
      `capacity` cells: the first line that fails its check, or success with one
      word per line. */
  function Load(lines: seq<ParsedLine>, capacity: nat): (r: LoadResult)
    ensures r.Loaded? ==> r.count == |lines|
    ensures r.Failed? ==> r.at < |lines| && CheckLine(lines[r.at], r.at, capacity) == Some(r.error)
    ensures forall i :: 0 <= i < Written(r) ==> CheckLine(lines[i], i, capacity) == None
    decreases |lines|
  {
    if |lines| == 0 then Loaded(0)
    else
      var n := |lines| - 1;
      var prev := Load(lines[..n], capacity);
      if prev.Failed? then prev
      else match CheckLine(lines[n], n, capacity)
        case Some(error) => Failed(n, error)
        case None => Loaded(n + 1)
  }

  /** How many lines were stored before the load ended. */
  function Written(r: LoadResult): (n: nat)
  {
    if r.Loaded? then r.count else r.at
  }

  /** The word a line stores (0 for a line that stores nothing). */
  function WordOf(line: ParsedLine): (w: nat)
  {
    if line.Word? then line.instr else 0
  }

  /** A load succeeds exactly when there are no more lines than memory cells and
      line `i` reads as address `i`, for every `i`. */
  lemma LoadSucceedsIff(lines: seq<ParsedLine>, capacity: nat)
    ensures Load(lines, capacity).Loaded? <==>
      |lines| <= capacity && forall i :: 0 <= i < |lines| ==> lines[i].Word? && lines[i].addr == i
  {
    var r := Load(lines, capacity);
    if r.Loaded? && |lines| > 0 {
      assert CheckLine(lines[|lines| - 1], |lines| - 1, capacity) == None;
    }
    if r.Failed? {
      assert CheckLine(lines[r.at], r.at, capacity) != None;
    }
  }

  /** When the addresses are in sequence up to line `k` and line `k` names a
      different address, the load fails there with that address, whether or not
      the address would fit in memory. */
  lemma FirstOutOfOrderAddressFails(lines: seq<ParsedLine>, capacity: nat, k: nat)
    requires k < |lines| && k <= capacity
    requires forall i :: 0 <= i < k ==> lines[i].Word? && lines[i].addr == i
    requires lines[k].Word? && lines[k].addr != k
    ensures Load(lines, capacity) == Failed(k, OutOfSequence(lines[k].addr))
  {
  }

  /** A program in sequence with more lines than memory cells fails at the first
      line past the end of memory. */
  lemma OversizedProgramIsRejected(lines: seq<ParsedLine>, capacity: nat)
    requires |lines| > capacity
    requires forall i :: 0 <= i < |lines| ==> lines[i].Word? && lines[i].addr == i
    ensures Load(lines, capacity) == Failed(capacity, TooBig)
  {
  }

  /** The memory after a load: the words of the lines stored, and the old
      contents everywhere else. */
  function Image(lines: seq<ParsedLine>, init: seq<nat>): (m: seq<nat>)
    ensures |m| == |init|
  {
    var written := Written(Load(lines, |init|));
    seq(|init|, j requires 0 <= j < |init| => if j < written && j < |lines| then WordOf(lines[j]) else init[j])
  }

  /** After a successful load, cell `i` holds the word of line `i`, and every cell
      past the program keeps its old contents. */
  lemma LoadedImage(lines: seq<ParsedLine>, init: seq<nat>)
    requires Load(lines, |init|).Loaded?
    ensures |lines| <= |init|
    ensures forall i :: 0 <= i < |lines| ==> lines[i].Word? && Image(lines, init)[i] == lines[i].instr
    ensures forall j :: |lines| <= j < |init| ==> Image(lines, init)[j] == init[j]
  {
    LoadSucceedsIff(lines, |init|);
  }

  /** `load_machine_code`: reads the lines in order, checks each and stores its
      word at its address; on the first bad line it stops with an error, the
      lines before it already stored. */
  method LoadMachineCode(lines: seq<string>, mem: array<nat>) returns (r: LoadResult)
    modifies mem
    ensures r == Load(ParseAll(lines), mem.Length)
    ensures mem[..] == Image(ParseAll(lines), old(mem[..]))
  {
    ghost var parsed := ParseAll(lines);
    var expectedaddr := 0;
    for i := 0 to |lines|
      invariant expectedaddr == i
      invariant Load(parsed[..i], mem.Length) == Loaded(i)
      invariant forall j :: 0 <= j < mem.Length ==> mem[j] == if j < i then WordOf(parsed[j]) else old(mem[j])
    {
      var line := ParseLine(lines[i]);
      assert parsed[..i + 1][..i] == parsed[..i];
      match line {
        case NoMatch =>
          r := Failed(i, CannotParse);
          LoadStopsAt(parsed, mem.Length, i);
          return;
        case NotBinary =>
          r := Failed(i, BadBinaryWord);
          LoadStopsAt(parsed, mem.Length, i);
          return;
        case Word(addr, instr) =>
          if addr != expectedaddr {
            r := Failed(i, OutOfSequence(addr));
            LoadStopsAt(parsed, mem.Length, i);
            return;
          }
          if addr >= mem.Length {
            r := Failed(i, TooBig);
            LoadStopsAt(parsed, mem.Length, i);
            return;
          }
          expectedaddr := expectedaddr + 1;
          mem[addr] := instr;
      }
    }
    assert parsed[..|lines|] == parsed;
    r := Loaded(|lines|);
  }

  /** Once line `i` fails, the load of the whole file fails there. */
  lemma {:induction false} LoadStopsAt(lines: seq<ParsedLine>, capacity: nat, i: nat)
    requires i < |lines|
    requires Load(lines[..i], capacity) == Loaded(i) && CheckLine(lines[i], i, capacity).Some?
    ensures Load(lines, capacity) == Failed(i, CheckLine(lines[i], i, capacity).value)
    decreases |lines|
  {
    var n := |lines| - 1;
    assert lines[..n][..i] == lines[..i];
    if i < n {
      LoadStopsAt(lines[..n], capacity, i);
    } else {
      assert lines[..n] == lines[..i];
    }
  }
}
