/**
 * The host utilities of the Python monitoring scripts: the `Command`
 * wrapper that records the output of the last shell command, the
 * per-partition usage checks over `df` output on Ubuntu and macOS hosts,
 * the host-type dispatch on `uname -a`, and the property-file loader that
 * fills the process environment.
 *
 * Shell commands are not run: their captured output is a `Proc` value
 * handed in by the caller. The process environment is an `Environ` object
 * holding a map, and files are a map from path to their lines.
 */
module HostUtils {
  import opened Common

  /** How a scripted step stops early: an exception or `exit(1)`. */
  datatype HostError =
    | ExitFailure      // exit_err: the script exits with status 1
    | NoSuchMethod     // AttributeError: a method or attribute that does not exist
    | NoOutput         // AttributeError: `None.split` on a command that printed nothing
    | ValueError       // int() on text that is not a number, or a mis-sized unpacking
    | TypeError        // comparing an int with text, or a str pattern on bytes
    | FileNotFound     // open() on a path that does not exist

  /** What a finished shell command left behind: its standard output and
      standard error (decoded) and its exit status. */
  datatype Proc = Proc(out: string, err: string, status: int)

  /** A threshold or a day count: a number written in the script, or the
      text of an environment variable that overrides it. */
  datatype Num = Num(n: int) | Text(s: string)

  // ---------------------------------------------------------------------
  // Command
  // ---------------------------------------------------------------------

  /** The text `run` keeps of one output stream: nothing when the stream is
      empty, else the text without its trailing newlines. */
  function Captured(b: string): (r: Option<string>)
    ensures r.None? <==> b == []
    ensures r.Some? ==> StartsWith(b, r.value)
    ensures r.Some? ==> r.value == [] || r.value[|r.value| - 1] != '\n'
    ensures r.Some? ==> forall i :: |r.value| <= i < |b| ==> b[i] == '\n'
  {
    if b == [] then None else Some(RStripChar(b, '\n'))
  }

  /** Runs a shell command and remembers what it printed and how it ended. */
  class Command {
    var lastStdout: Option<string>
    var lastStderr: Option<string>
    var lastStatus: Option<int>

    constructor()
      ensures lastStdout == None && lastStderr == None && lastStatus == None
    {
      lastStdout, lastStderr, lastStatus := None, None, None;
    }

    /** `run` as intended: every call forgets the previous command, keeps
        each non-empty stream without its trailing newlines, and records
        and returns the exit status. */
    method Run(p: Proc) returns (status: int)
      modifies this
      ensures lastStdout == Captured(p.out)
      ensures lastStderr == Captured(p.err)
      ensures lastStatus == Some(p.status) && status == p.status
    {
      lastStdout, lastStderr, lastStatus := None, None, None;
      if p.out != [] {
        lastStdout := Some(RStripChar(p.out, '\n'));
      }
      if p.err != [] {
        lastStderr := Some(RStripChar(p.err, '\n'));
      }
      lastStatus := Some(p.status);
      status := p.status;
    }

    /** `run` as written: the standard-error branch calls `rstript`, which
        text does not have, so any command that writes to standard error
        raises after the output is stored and before the status is. */
    method RunAsWritten(p: Proc) returns (r: Result<int, HostError>)
      modifies this
      ensures lastStdout == Captured(p.out)
      ensures lastStderr == None
      ensures p.err == [] ==> r == Ok(p.status) && lastStatus == Some(p.status)
      ensures p.err != [] ==> r == Err(NoSuchMethod) && lastStatus == None
    {
      lastStdout, lastStderr, lastStatus := None, None, None;
      if p.out != [] {
        lastStdout := Some(RStripChar(p.out, '\n'));
      }
      if p.err != [] {
        return Err(NoSuchMethod);
      }
      lastStatus := Some(p.status);
      r := Ok(p.status);
    }
  }

  // ---------------------------------------------------------------------
  // Splitting a df line
  // ---------------------------------------------------------------------

  /** Python `re.split(r'\s+', s, maxsplit)`: at most `maxsplit` cuts at the
      leftmost whitespace runs, the rest of the text kept whole. */
  function ReSplit(s: string, maxsplit: nat): (r: seq<string>)
    ensures 1 <= |r| <= maxsplit + 1
    ensures forall k :: 0 <= k < |r| - 1 ==> NoSpace(r[k])
    decreases |s|
  {
    if maxsplit == 0 then [s]
    else match FindSpace(s)
      case None => [s]
      case Some(i) => [s[..i]] + ReSplit(s[RunEnd(s, i)..], maxsplit - 1)
  }

  lemma FindSpaceAfter(a: string, rest: string)
    requires NoSpace(a)
    ensures FindSpace(a + " " + rest) == Some(|a|)
  {
    var s := a + " " + rest;
    assert s[|a|] == ' ';
    assert forall j | 0 <= j < |a| :: s[j] == a[j];
  }

  /** Fields joined by single spaces split back into the same fields, as
      long as no field but the last holds whitespace, no field is empty and
      the last does not start with whitespace. */
  lemma {:induction false} ReSplitJoin(fields: seq<string>, m: nat)
    requires |fields| == m + 1
    requires forall k :: 0 <= k < m ==> fields[k] != [] && NoSpace(fields[k])
    requires fields[m] == [] || !IsSpace(fields[m][0])
    ensures ReSplit(Join(fields, " "), m) == fields
    decreases m
  {
    if m > 0 {
      var a := fields[0];
      var rest := Join(fields[1..], " ");
      var s := a + " " + rest;
      assert Join(fields, " ") == s;
      ReSplitJoin(fields[1..], m - 1);
      FindSpaceAfter(a, rest);
      assert rest == [] || !IsSpace(rest[0]) by {
        if m > 1 {
          assert rest == fields[1] + " " + Join(fields[2..], " ");
          assert rest[0] == fields[1][0];
        }
      }
      if |a| + 1 < |s| {
        assert s[|a| + 1] == rest[0];
      }
      assert RunEnd(s, |a|) == |a| + 1;
      assert s[..|a|] == a && s[|a| + 1..] == rest;
    }
  }

  // ---------------------------------------------------------------------
  // The percentage field
  // ---------------------------------------------------------------------

  /** Length of the run of decimal digits at the start of `s`. */
  function LeadingDigits(s: string): (n: nat)
    ensures n <= |s|
    ensures AllDigits(s[..n])
    ensures n == |s| || !IsDigit(s[n])
  {
    if s == [] || !IsDigit(s[0]) then 0
    else
      var n := 1 + LeadingDigits(s[1..]);
      assert s[..n] == [s[0]] + s[1..][..n - 1];
      n
  }

  /** `re.match(r'\d+%', s)`: one or more digits, then a percent sign. */
  predicate PercentPrefix(s: string)
  {
    var d := LeadingDigits(s);
    0 < d < |s| && s[d] == '%'
  }

  lemma {:induction false} LeadingDigitsOf(a: string, b: string)
    requires AllDigits(a)
    requires b == [] || !IsDigit(b[0])
    ensures LeadingDigits(a + b) == |a|
    decreases |a|
  {
    if a != [] {
      LeadingDigitsOf(a[1..], b);
      assert (a + b)[1..] == a[1..] + b;
    } else {
      assert a + b == b;
    }
  }

  lemma {:induction false} DropPercent(a: string)
    requires '%' !in a
    ensures ReplaceAll(a + "%", "%", "") == a
    decreases |a|
  {
    var s := a + "%";
    if a == [] {
      assert s == "%";
      assert StartsWith(s, "%");
      assert s[1..] == [];
    } else {
      assert !StartsWith(s, "%") by { assert s[0] == a[0]; }
      DropPercent(a[1..]);
      assert s[1..] == a[1..] + "%";
      assert a == [a[0]] + a[1..];
    }
  }

  // ---------------------------------------------------------------------
  // One df line
  // ---------------------------------------------------------------------

  /** The shape of a host's `df` output: how many cuts the split makes
      (the unpacking then needs exactly one more field), which field holds
      the use percentage, whether `map` lines are skipped, and whether the
      threshold goes through `int()` before the comparison. */
  datatype Layout = Layout(maxsplit: nat, pctField: nat, skipMap: bool, convertThreshold: bool)

  /** Ubuntu: six fields, the percentage fifth, `int(threshold)`. */
  const UbuntuLayout := Layout(5, 4, false, true)
  /** macOS: `map` lines skipped, nine fields, the percentage eighth, the
      threshold compared as given. */
  const MacLayout := Layout(8, 7, true, false)

  predicate ValidLayout(l: Layout)
  {
    l.pctField <= l.maxsplit
  }

  /** Python `int(x)` on a number or on text. */
  function IntOf(x: Num): (r: Result<int, HostError>)
    ensures x.Num? ==> r == Ok(x.n)
    ensures x.Text? && AllDigits(x.s) && x.s != [] ==> r == Ok(DigitsValue(x.s))
  {
    match x
    case Num(n) => Ok(n)
    case Text(s) =>
      match PyInt(s)
      case None => Err(ValueError)
      case Some(n) => Ok(n)
  }

  /** The threshold as the comparison sees it: `int(threshold)` on Ubuntu;
      on macOS a text threshold makes `int > str` raise. */
  function ThresholdOf(l: Layout, thr: Num): (r: Result<int, HostError>)
    ensures l.convertThreshold ==> r == IntOf(thr)
    ensures !l.convertThreshold ==> r == if thr.Num? then Ok(thr.n) else Err(TypeError)
  {
    if l.convertThreshold then IntOf(thr)
    else if thr.Num? then Ok(thr.n)
    else Err(TypeError)
  }

  /** What one line contributes: nothing, a partition over the threshold,
      or an exception that ends the whole check. */
  datatype Verdict = Pass | Over | Crash(e: HostError)

  function LineVerdict(line: string, l: Layout, thr: Num): Verdict
    requires ValidLayout(l)
  {
    if l.skipMap && StartsWith(line, "map") then Pass
    else
      var f := ReSplit(line, l.maxsplit);
      if |f| != l.maxsplit + 1 then Crash(ValueError)
      else
        var piu := f[l.pctField];
        if !PercentPrefix(piu) then Pass
        else match PyInt(ReplaceAll(piu, "%", ""))
          case None => Crash(ValueError)
          case Some(n) =>
            match ThresholdOf(l, thr)
            case Err(e) => Crash(e)
            case Ok(t) => if n > t then Over else Pass
  }

  /** A line of well-formed fields whose percentage field is `n%` is over
      the threshold exactly when `n` is strictly greater than it; a line
      whose percentage field is not of that form (the header, `Use%`) is
      skipped. On macOS a line starting with `map` is always skipped. */
  lemma PercentLine(l: Layout, fields: seq<string>, n: nat, t: int)
    requires ValidLayout(l)
    requires |fields| == l.maxsplit + 1
    requires forall k :: 0 <= k < l.maxsplit ==> fields[k] != [] && NoSpace(fields[k])
    requires fields[l.maxsplit] == [] || !IsSpace(fields[l.maxsplit][0])
    requires !(l.skipMap && StartsWith(Join(fields, " "), "map"))
    ensures fields[l.pctField] == NatToString(n) + "%" ==>
              LineVerdict(Join(fields, " "), l, Num(t)) == if n > t then Over else Pass
    ensures !PercentPrefix(fields[l.pctField]) ==> LineVerdict(Join(fields, " "), l, Num(t)) == Pass
  {
    ReSplitJoin(fields, l.maxsplit);
    if fields[l.pctField] == NatToString(n) + "%" {
      var d := NatToString(n);
      LeadingDigitsOf(d, "%");
      assert '%' !in d by {
        forall i | 0 <= i < |d| ensures d[i] != '%' {
          assert IsDigit(d[i]);
        }
      }
      DropPercent(d);
    }
  }

  // ---------------------------------------------------------------------
  // A whole df output
  // ---------------------------------------------------------------------

  /** The result of scanning the verdicts of the lines in order: the first
      exception, or whether every partition stayed within the threshold. */
  function Scan(vs: seq<Verdict>): Result<bool, HostError>
  {
    if vs == [] then Ok(true)
    else match Scan(vs[..|vs| - 1])
      case Err(e) => Err(e)
      case Ok(ok) => ScanStep(ok, vs[|vs| - 1])
  }

  /** One line of the walk: a crash ends it, a partition over the threshold
      clears the flag, any other line keeps it. */
  function ScanStep(ok: bool, v: Verdict): Result<bool, HostError>
  {
    match v
    case Crash(e) => Err(e)
    case Over => Ok(false)
    case Pass => Ok(ok)
  }

  /** Walking one more line applies `ScanStep` to the flag so far. */
  lemma ScanNext(vs: seq<Verdict>, i: nat)
    requires i < |vs| && Scan(vs[..i]).Ok?
    ensures Scan(vs[..i + 1]) == ScanStep(Scan(vs[..i]).value, vs[i])
  {
    assert vs[..i + 1][..i] == vs[..i];
  }

  function Verdicts(lines: seq<string>, l: Layout, thr: Num): (vs: seq<Verdict>)
    requires ValidLayout(l)
    ensures |vs| == |lines|
  {
    seq(|lines|, i requires 0 <= i < |lines| => LineVerdict(lines[i], l, thr))
  }

  function DfScan(lines: seq<string>, l: Layout, thr: Num): Result<bool, HostError>
    requires ValidLayout(l)
  {
    Scan(Verdicts(lines, l, thr))
  }

  /** Once a line has raised, later lines change nothing. */
  lemma {:induction false} ScanErrStays(a: seq<Verdict>, b: seq<Verdict>)
    requires Scan(a).Err?
    ensures Scan(a + b) == Scan(a)
    decreases |b|
  {
    if b != [] {
      var b' := b[..|b| - 1];
      ScanErrStays(a, b');
      assert (a + b)[..|a + b| - 1] == a + b';
    } else {
      assert a + b == a;
    }
  }

  /** The check completes iff no line raises. */
  lemma {:induction false} ScanCompletes(vs: seq<Verdict>)
    ensures Scan(vs).Ok? <==> forall i :: 0 <= i < |vs| ==> !vs[i].Crash?
    decreases |vs|
  {
    if vs != [] {
      var init := vs[..|vs| - 1];
      ScanCompletes(init);
      assert forall i :: 0 <= i < |init| ==> init[i] == vs[i];
    }
  }

  /** A completed check reports false iff some line is over the threshold. */
  lemma {:induction false} ScanReportsOver(vs: seq<Verdict>)
    requires Scan(vs).Ok?
    ensures !Scan(vs).value <==> exists i :: 0 <= i < |vs| && vs[i] == Over
    decreases |vs|
  {
    if vs != [] {
      var n := |vs| - 1;
      var init := vs[..n];
      ScanReportsOver(init);
      assert forall i :: 0 <= i < n ==> init[i] == vs[i];
    }
  }

  /** A skipped line can be removed from anywhere without changing the
      result. */
  lemma {:induction false} ScanSkip(a: seq<Verdict>, b: seq<Verdict>)
    ensures Scan(a + [Pass] + b) == Scan(a + b)
    decreases |b|
  {
    if b == [] {
      assert (a + [Pass] + b)[..|a|] == a;
      assert a + [Pass] + b == a + [Pass];
      assert a + b == a;
    } else {
      var b' := b[..|b| - 1];
      ScanSkip(a, b');
      assert (a + [Pass] + b)[..|a + [Pass] + b| - 1] == a + [Pass] + b';
      assert (a + b)[..|a + b| - 1] == a + b';
      assert (a + [Pass] + b)[|a + [Pass] + b| - 1] == b[|b| - 1];
      assert (a + b)[|a + b| - 1] == b[|b| - 1];
    }
  }

  /** Over a whole df output: the check completes iff no line raises. */
  lemma DfScanCompletes(lines: seq<string>, l: Layout, thr: Num)
    requires ValidLayout(l)
    ensures DfScan(lines, l, thr).Ok? <==> forall i :: 0 <= i < |lines| ==> !LineVerdict(lines[i], l, thr).Crash?
  {
    var vs := Verdicts(lines, l, thr);
    ScanCompletes(vs);
    assert forall i :: 0 <= i < |lines| ==> vs[i] == LineVerdict(lines[i], l, thr);
  }

  /** Over a whole df output: a completed check reports false iff some
      line is over the threshold. */
  lemma DfScanReportsOver(lines: seq<string>, l: Layout, thr: Num)
    requires ValidLayout(l)
    requires DfScan(lines, l, thr).Ok?
    ensures !DfScan(lines, l, thr).value <==> exists i :: 0 <= i < |lines| && LineVerdict(lines[i], l, thr) == Over
  {
    var vs := Verdicts(lines, l, thr);
    ScanReportsOver(vs);
    assert forall i :: 0 <= i < |lines| ==> vs[i] == LineVerdict(lines[i], l, thr);
  }

  lemma VerdictsAppend(a: seq<string>, b: seq<string>, l: Layout, thr: Num)
    requires ValidLayout(l)
    ensures Verdicts(a + b, l, thr) == Verdicts(a, l, thr) + Verdicts(b, l, thr)
  {
    var s := a + b;
    assert forall i | 0 <= i < |a| :: s[i] == a[i];
    assert forall i | 0 <= i < |b| :: s[|a| + i] == b[i];
  }

  /** A line that is skipped (a header, a `map` line on macOS) can be
      removed from anywhere in the output without changing the result. */
  lemma DfScanSkip(a: seq<string>, line: string, b: seq<string>, l: Layout, thr: Num)
    requires ValidLayout(l)
    requires LineVerdict(line, l, thr) == Pass
    ensures DfScan(a + [line] + b, l, thr) == DfScan(a + b, l, thr)
  {
    VerdictsAppend(a, [line], l, thr);
    VerdictsAppend(a + [line], b, l, thr);
    VerdictsAppend(a, b, l, thr);
    assert Verdicts([line], l, thr) == [Pass];
    ScanSkip(Verdicts(a, l, thr), Verdicts(b, l, thr));
  }

  /** On macOS every line starting with `map` is ignored, wherever it is. */
  lemma MapLinesIgnored(a: seq<string>, line: string, b: seq<string>, thr: Num)
    requires StartsWith(line, "map")
    ensures DfScan(a + [line] + b, MacLayout, thr) == DfScan(a + b, MacLayout, thr)
  {
    DfScanSkip(a, line, b, MacLayout, thr);
  }

  // ---------------------------------------------------------------------
  // Hosts
  // ---------------------------------------------------------------------

  /** Which class `create_host` instantiates. */
  datatype OsKind = GenericHost | UbuntuHost | MacHost

  function LayoutOf(k: OsKind): (l: Layout)
    requires k != GenericHost
    ensures ValidLayout(l)
  {
    if k == UbuntuHost then UbuntuLayout else MacLayout
  }

  /** The outcome of a usage check on a host whose `df` printed `p`: the
      generic host has no check at all, an empty output has no lines to
      split, and otherwise the lines of the output are scanned. */
  function DfCheck(k: OsKind, thr: Num, p: Proc): Result<bool, HostError>
  {
    if k == GenericHost then Err(NoSuchMethod)
    else match Captured(p.out)
      case None => Err(NoOutput)
      case Some(s) => DfScan(SplitChar(s, '\n'), LayoutOf(k), thr)
  }

  class Host {
    const kind: OsKind
    const cmd: Command

    /** A host uses the command runner it is given, or a new one. */
    constructor(kind: OsKind, given: Command?)
      ensures this.kind == kind
      ensures given != null ==> cmd == given
      ensures given == null ==> fresh(cmd)
    {
      this.kind := kind;
      if given == null {
        cmd := new Command();
      } else {
        cmd := given;
      }
    }

    /** `check_inodes`: `df -i` printed `p`. */
    method CheckInodes(thr: Num, p: Proc) returns (r: Result<bool, HostError>)
      modifies cmd
      ensures r == DfCheck(kind, thr, p)
      ensures kind != GenericHost ==> cmd.lastStdout == Captured(p.out) && cmd.lastStatus == Some(p.status)
      ensures kind == GenericHost ==> unchanged(cmd)
    {
      r := CheckPartitions(thr, p);
    }

    /** `check_diskspace`: `df -h` printed `p`. */
    method CheckDiskspace(thr: Num, p: Proc) returns (r: Result<bool, HostError>)
      modifies cmd
      ensures r == DfCheck(kind, thr, p)
      ensures kind != GenericHost ==> cmd.lastStdout == Captured(p.out) && cmd.lastStatus == Some(p.status)
      ensures kind == GenericHost ==> unchanged(cmd)
    {
      r := CheckPartitions(thr, p);
    }

    /** The loop both checks share: run the command, then walk its lines
        with an `ok` flag that any partition over the threshold clears. */
    method CheckPartitions(thr: Num, p: Proc) returns (r: Result<bool, HostError>)
      modifies cmd
      ensures r == DfCheck(kind, thr, p)
      ensures kind != GenericHost ==> cmd.lastStdout == Captured(p.out) && cmd.lastStatus == Some(p.status)
      ensures kind == GenericHost ==> unchanged(cmd)
    {
      if kind == GenericHost {
        return Err(NoSuchMethod);
      }
      var layout := LayoutOf(kind);
      var _ := cmd.Run(p);
      if cmd.lastStdout.None? {
        return Err(NoOutput);
      }
      var lines := SplitChar(cmd.lastStdout.value, '\n');
      r := ScanLines(lines, layout, thr);
    }

    /** Walk the lines with an `ok` flag that any partition over the
        threshold clears; the first line that raises ends the walk. */
    static method ScanLines(lines: seq<string>, layout: Layout, thr: Num) returns (r: Result<bool, HostError>)
      requires ValidLayout(layout)
      ensures r == DfScan(lines, layout, thr)
    {
      ghost var vs := Verdicts(lines, layout, thr);
      var ok := true;
      var i := 0;
      while i < |lines|
        invariant 0 <= i <= |lines|
        invariant Scan(vs[..i]) == Ok(ok)
      {
        ScanNext(vs, i);
        match LineVerdict(lines[i], layout, thr) {
          case Crash(e) =>
            ScanErrStays(vs[..i + 1], vs[i + 1..]);
            assert vs[..i + 1] + vs[i + 1..] == vs;
            return Err(e);
          case Over =>
            ok := false;
          case Pass =>
        }
        i := i + 1;
      }
      assert vs[..i] == vs;
      r := Ok(ok);
    }
  }

  // ---------------------------------------------------------------------
  // create_host
  // ---------------------------------------------------------------------

  /** `re.match('A.+B', s)`: `s` starts with `a`, then at least one
      character other than a newline, then `b` later on the same line. */
  predicate MatchesAThenB(s: string, a: string, b: string)
  {
    StartsWith(s, a) &&
    exists j | |a| < j <= |s| - |b| :: OccursAt(s, b, j) && '\n' !in s[|a|..j]
  }

  /** `create_host`: a `uname -a` that wrote to standard error ends the
      script; an empty output stays bytes, which a text pattern refuses;
      otherwise Ubuntu is tried before macOS, and anything else is the
      generic host. */
  function CreateHost(p: Proc): (r: Result<OsKind, HostError>)
    ensures p.err != [] ==> r == Err(ExitFailure)
    ensures p.err == [] && p.out == [] ==> r == Err(TypeError)
    ensures p.err == [] && p.out != [] ==> r.Ok?
    ensures r == Ok(UbuntuHost) ==> MatchesAThenB(RStripChar(p.out, '\n'), "Linux", "Ubuntu")
    ensures r == Ok(MacHost) ==> MatchesAThenB(RStripChar(p.out, '\n'), "Darwin", "Darwin")
    ensures r == Ok(GenericHost) ==>
              !MatchesAThenB(RStripChar(p.out, '\n'), "Linux", "Ubuntu") &&
              !MatchesAThenB(RStripChar(p.out, '\n'), "Darwin", "Darwin")
  {
    if p.err != [] then Err(ExitFailure)
    else if p.out == [] then Err(TypeError)
    else
      var s := RStripChar(p.out, '\n');
      if MatchesAThenB(s, "Linux", "Ubuntu") then Ok(UbuntuHost)
      else if MatchesAThenB(s, "Darwin", "Darwin") then Ok(MacHost)
      else Ok(GenericHost)
  }

  /** A `uname -a` line that starts with `Linux` and names Ubuntu later on
      gives the Ubuntu host. */
  lemma CreateHostUbuntu(mid: string, rest: string)
    requires mid != [] && '\n' !in mid && '\n' !in rest
    ensures CreateHost(Proc("Linux" + mid + "Ubuntu" + rest + "\n", "", 0)) == Ok(UbuntuHost)
  {
    var u := "Linux" + mid + "Ubuntu" + rest;
    assert u[|u| - 1] != '\n' by {
      if rest == [] { assert u[|u| - 1] == 'u'; } else { assert u[|u| - 1] == rest[|rest| - 1]; }
    }
    StripNewline(u);
    MatchesParts("Linux", mid, "Ubuntu", rest);
  }

  /** A macOS `uname -a` line (`Darwin ... Darwin Kernel ...`) gives the Mac
      host. */
  lemma CreateHostMac(mid: string, rest: string)
    requires mid != [] && '\n' !in mid && '\n' !in rest
    ensures CreateHost(Proc("Darwin" + mid + "Darwin" + rest + "\n", "", 0)) == Ok(MacHost)
  {
    var d := "Darwin" + mid + "Darwin" + rest;
    assert d[|d| - 1] != '\n' by {
      if rest == [] { assert d[|d| - 1] == 'n'; } else { assert d[|d| - 1] == rest[|rest| - 1]; }
    }
    StripNewline(d);
    MatchesParts("Darwin", mid, "Darwin", rest);
    assert !StartsWith(d, "Linux") by { assert d[0] == 'D'; }
  }

  /** Any other system gets the generic host. */
  lemma CreateHostOther(line: string)
    requires line != [] && line[|line| - 1] != '\n'
    requires !StartsWith(line, "Linux") && !StartsWith(line, "Darwin")
    ensures CreateHost(Proc(line + "\n", "", 0)) == Ok(GenericHost)
  {
    StripNewline(line);
  }

  /** `rstrip("\n")` takes off one newline after a line that ends otherwise. */
  lemma StripNewline(line: string)
    requires line != [] && line[|line| - 1] != '\n'
    ensures RStripChar(line + "\n", '\n') == line
  {
    assert (line + "\n")[..|line|] == line;
  }

  /** `a`, some text without a newline, `b` and anything after match `a.+b`. */
  lemma MatchesParts(a: string, mid: string, b: string, rest: string)
    requires mid != [] && '\n' !in mid
    ensures MatchesAThenB(a + mid + b + rest, a, b)
  {
    var s := a + mid + b + rest;
    var j := |a| + |mid|;
    assert s[..|a|] == a;
    assert s[j..j + |b|] == b;
    assert s[|a|..j] == mid;
  }

  // ---------------------------------------------------------------------
  // load_properties
  // ---------------------------------------------------------------------

  /** The process environment (`os.environ`). */
  class Environ {
    var vars: map<string, string>

    constructor(vars: map<string, string>)
      ensures this.vars == vars
    {
      this.vars := vars;
    }
  }

  /** The property file to read: `--property_file` when given and not
      empty, else the `PROPERTY_FILE` variable; nothing when the chosen
      name is missing or empty. */
  function PropertyFile(vars: map<string, string>, arg: Option<string>): (r: Option<string>)
    ensures arg.Some? && arg.value != "" ==> r == arg
    ensures (arg.None? || arg.value == "") && "PROPERTY_FILE" in vars && vars["PROPERTY_FILE"] != "" ==>
              r == Some(vars["PROPERTY_FILE"])
    ensures r.Some? ==> r.value != ""
  {
    if arg.Some? && arg.value != "" then arg
    else if "PROPERTY_FILE" in vars && vars["PROPERTY_FILE"] != "" then Some(vars["PROPERTY_FILE"])
    else None
  }

  /** A property line holds `=`; its name is the stripped text before the
      first `=` and its value the stripped text after it. */
  predicate IsPropertyLine(line: string)
  {
    '=' in line
  }

  function PropertyName(line: string): string
    requires IsPropertyLine(line)
  {
    Strip(SplitOnce(line, '=').value.0)
  }

  function PropertyValue(line: string): string
    requires IsPropertyLine(line)
  {
    Strip(SplitOnce(line, '=').value.1)
  }

  /** The `keys` dictionary after reading `lines` in order. */
  function Properties(lines: seq<string>): (m: OMap<string>)
    ensures WellFormed(m)
  {
    if lines == [] then EmptyMap()
    else
      ReadLine(Properties(lines[..|lines| - 1]), lines[|lines| - 1])
  }

  /** One line of the first loop: a line holding `=` sets its stripped name
      to its stripped value. */
  function ReadLine(m: OMap<string>, line: string): (r: OMap<string>)
    requires WellFormed(m)
    ensures WellFormed(r)
  {
    if IsPropertyLine(line) then Put(m, PropertyName(line), PropertyValue(line)) else m
  }

  /** Reading one more line applies `ReadLine` to the dictionary so far. */
  lemma PropertiesNext(lines: seq<string>, i: nat)
    requires i < |lines|
    ensures Properties(lines[..i + 1]) == ReadLine(Properties(lines[..i]), lines[i])
  {
    assert lines[..i + 1][..i] == lines[..i];
  }

  /** Whether `line` assigns the property `k`. */
  predicate Defines(line: string, k: string)
  {
    IsPropertyLine(line) && PropertyName(line) == k
  }

  /** Whether some line of `lines` assigns the property `k`. */
  predicate SomeLineDefines(lines: seq<string>, k: string)
  {
    lines != [] && (SomeLineDefines(lines[..|lines| - 1], k) || Defines(lines[|lines| - 1], k))
  }

  /** A name is defined iff some property line names it. */
  lemma {:induction false} PropertiesDefined(lines: seq<string>, k: string)
    ensures k in Properties(lines).vals <==> SomeLineDefines(lines, k)
    decreases |lines|
  {
    if lines != [] {
      var n := |lines| - 1;
      var init := lines[..n];
      var last := lines[n];
      PropertiesDefined(init, k);
      if IsPropertyLine(last) {
        assert Properties(lines) == Put(Properties(init), PropertyName(last), PropertyValue(last));
      }
    }
  }

  /** The value of a name is the one from the last line that defines it. */
  lemma {:induction false} PropertiesLastWins(lines: seq<string>, i: nat, k: string)
    requires i < |lines| && Defines(lines[i], k)
    requires forall j :: i < j < |lines| ==> !Defines(lines[j], k)
    ensures k in Properties(lines).vals && Properties(lines).vals[k] == PropertyValue(lines[i])
    decreases |lines|
  {
    if i < |lines| - 1 {
      var init := lines[..|lines| - 1];
      assert forall j :: 0 <= j < |init| ==> init[j] == lines[j];
      PropertiesLastWins(init, i, k);
      assert !Defines(lines[|lines| - 1], k);
    }
  }

  /** The environment after loading `names` in order: a name that is
      already set to something non-empty keeps its value, any other name
      gets the property's value. */
  function Applied(vars: map<string, string>, names: seq<string>, vals: map<string, string>): map<string, string>
    requires forall k | k in names :: k in vals
  {
    if names == [] then vars
    else
      var e := Applied(vars, names[..|names| - 1], vals);
      var k := names[|names| - 1];
      if k in e && e[k] != "" then e else e[k := vals[k]]
  }

  /** Names already set to a non-empty value win; every other loaded name
      gets its property value; nothing else changes. */
  lemma {:induction false} AppliedSpec(vars: map<string, string>, names: seq<string>, vals: map<string, string>)
    requires forall k | k in names :: k in vals
    ensures forall k :: k in Applied(vars, names, vals) <==> k in vars || k in names
    ensures forall k | k in vars && vars[k] != "" :: Applied(vars, names, vals)[k] == vars[k]
    ensures forall k | k in names && (k !in vars || vars[k] == "") :: Applied(vars, names, vals)[k] == vals[k]
    ensures forall k | k in vars && k !in names :: Applied(vars, names, vals)[k] == vars[k]
    decreases |names|
  {
    if names != [] {
      var init := names[..|names| - 1];
      var last := names[|names| - 1];
      AppliedSpec(vars, init, vals);
      assert forall k :: k in names <==> k in init || k == last;
    }
  }

  /** Whether `os.environ[name] = value` is accepted: POSIX refuses an
      empty name and a NUL byte in either part (ValueError). A name never
      holds `=`, since a property line is split at its first `=`. */
  predicate Settable(name: string, value: string)
  {
    name != "" && '\0' !in name && '\0' !in value
  }

  /** Whether `name` reaches the assignment, i.e. is not set to something
      non-empty in `vars`. */
  predicate Unset(vars: map<string, string>, name: string)
  {
    name !in vars || vars[name] == ""
  }

  /** The environment loop as written, name by name: the environment it
      leaves behind and whether an assignment raised. The assignments made
      before the one that raised stay in the environment. */
  function Loaded(vars: map<string, string>, names: seq<string>, vals: map<string, string>): (r: (map<string, string>, bool))
    requires forall k | k in names :: k in vals
  {
    if names == [] then (vars, false)
    else
      var (e, raised) := Loaded(vars, names[..|names| - 1], vals);
      LoadStep(e, raised, names[|names| - 1], vals)
  }

  /** One name of the environment loop. */
  function LoadStep(e: map<string, string>, raised: bool, k: string, vals: map<string, string>): (map<string, string>, bool)
    requires k in vals
  {
    if raised || !Unset(e, k) then (e, raised)
    else if !Settable(k, vals[k]) then (e, true)
    else (e[k := vals[k]], false)
  }

  /** A loop that does not raise leaves exactly the applied properties. */
  lemma {:induction false} LoadedClean(vars: map<string, string>, names: seq<string>, vals: map<string, string>)
    requires forall k | k in names :: k in vals
    ensures !Loaded(vars, names, vals).1 ==> Loaded(vars, names, vals).0 == Applied(vars, names, vals)
    decreases |names|
  {
    if names != [] {
      LoadedClean(vars, names[..|names| - 1], vals);
    }
  }

  /** Whether loading `k` raises against `vars`: it reaches the
      assignment and the environment refuses it. */
  predicate Refused(vars: map<string, string>, k: string, vals: map<string, string>)
  {
    k in vals && Unset(vars, k) && !Settable(k, vals[k])
  }

  /** With distinct names, the loop raises iff some loaded name that is
      not already set non-empty cannot be set (an empty name, say). */
  lemma {:induction false} LoadedRaises(vars: map<string, string>, names: seq<string>, vals: map<string, string>)
    requires forall k | k in names :: k in vals
    requires Distinct(names)
    ensures Loaded(vars, names, vals).1 <==> exists k | k in names :: Refused(vars, k, vals)
    decreases |names|
  {
    if names != [] {
      var init := names[..|names| - 1];
      var k := names[|names| - 1];
      assert forall x :: x in names <==> x in init || x == k;
      assert Distinct(init) by {
        forall i, j | 0 <= i < j < |init| ensures init[i] != init[j] {
          assert init[i] == names[i] && init[j] == names[j];
        }
      }
      assert k !in init;
      LoadedRaises(vars, init, vals);
      if !Loaded(vars, init, vals).1 {
        LoadedClean(vars, init, vals);
        AppliedSpec(vars, init, vals);
        assert Unset(Loaded(vars, init, vals).0, k) == Unset(vars, k);
      }
    }
  }

  /** Once the loop has raised, the later names change nothing. */
  lemma {:induction false} LoadedStops(vars: map<string, string>, names: seq<string>, vals: map<string, string>, n: nat)
    requires forall k | k in names :: k in vals
    requires n <= |names| && Loaded(vars, names[..n], vals).1
    ensures Loaded(vars, names, vals) == Loaded(vars, names[..n], vals)
    decreases |names| - n
  {
    if n < |names| {
      assert names[..n + 1][..n] == names[..n];
      LoadedStops(vars, names, vals, n + 1);
    } else {
      assert names[..n] == names;
    }
  }

  /** A property line `=x` gives the empty name, which cannot be set: the
      loop raises unless something else raised first. */
  lemma EmptyNameRaises(vars: map<string, string>, names: seq<string>, vals: map<string, string>)
    requires forall k | k in names :: k in vals
    requires Distinct(names) && "" in names && "" !in vars
    ensures Loaded(vars, names, vals).1
  {
    LoadedRaises(vars, names, vals);
    assert Refused(vars, "", vals);
  }

  /** The environment and the outcome after `load_properties`: no property
      file leaves the environment alone, a missing one raises
      `FileNotFoundError`, and otherwise its properties are loaded in order. */
  function PropertiesLoaded(vars: map<string, string>, arg: Option<string>,
                            files: map<string, seq<string>>): (map<string, string>, Result<(), HostError>)
  {
    var file := PropertyFile(vars, arg);
    if file.None? then (vars, Ok(()))
    else if file.value !in files then (vars, Err(FileNotFound))
    else
      var keys := Properties(files[file.value]);
      var (loaded, raised) := Loaded(vars, keys.keys, keys.vals);
      (loaded, if raised then Err(ValueError) else Ok(()))
  }

  class Utils {
    const env: Environ
    /** `args.property_file`. */
    var propertyFileArg: Option<string>

    constructor(env: Environ, propertyFileArg: Option<string>)
      ensures this.env == env && this.propertyFileArg == propertyFileArg
    {
      this.env := env;
      this.propertyFileArg := propertyFileArg;
    }

    /** `load_properties`: read the chosen property file (its lines given by
        `files`) and load each property into the environment unless the
        name is already set to a non-empty value. */
    method LoadProperties(files: map<string, seq<string>>) returns (r: Result<(), HostError>)
      modifies env
      ensures PropertyFile(old(env.vars), propertyFileArg).None? ==> r.Ok? && env.vars == old(env.vars)
      ensures PropertyFile(old(env.vars), propertyFileArg).Some? && PropertyFile(old(env.vars), propertyFileArg).value !in files ==>
                r == Err(FileNotFound) && env.vars == old(env.vars)
      ensures PropertyFile(old(env.vars), propertyFileArg).Some? && PropertyFile(old(env.vars), propertyFileArg).value in files ==>
                var keys := Properties(files[PropertyFile(old(env.vars), propertyFileArg).value]);
                var (vars, raised) := Loaded(old(env.vars), keys.keys, keys.vals);
                env.vars == vars && r == if raised then Err(ValueError) else Ok(())
      ensures (env.vars, r) == PropertiesLoaded(old(env.vars), propertyFileArg, files)
    {
      var file := PropertyFile(env.vars, propertyFileArg);
      if file.None? {
        return Ok(());
      }
      if file.value !in files {
        return Err(FileNotFound);
      }
      var keys := ReadProperties(files[file.value]);
      r := ApplyProperties(keys);
    }

    /** The first loop: fill `keys` from the lines holding `=`. */
    static method ReadProperties(lines: seq<string>) returns (keys: OMap<string>)
      ensures keys == Properties(lines)
    {
      keys := EmptyMap();
      var i := 0;
      while i < |lines|
        invariant 0 <= i <= |lines|
        invariant keys == Properties(lines[..i])
      {
        PropertiesNext(lines, i);
        var line := lines[i];
        if '=' in line {
          var (name, value) := SplitOnce(line, '=').value;
          keys := Put(keys, Strip(name), Strip(value));
        }
        i := i + 1;
      }
      assert lines[..i] == lines;
    }

    /** The second loop: set every name not already set to something
        non-empty; an assignment the environment refuses raises ValueError
        and keeps the assignments made before it. */
    method ApplyProperties(keys: OMap<string>) returns (r: Result<(), HostError>)
      requires WellFormed(keys)
      modifies env
      ensures var (vars, raised) := Loaded(old(env.vars), keys.keys, keys.vals);
              env.vars == vars && r == if raised then Err(ValueError) else Ok(())
    {
      var i := 0;
      while i < |keys.keys|
        invariant 0 <= i <= |keys.keys|
        invariant Loaded(old(env.vars), keys.keys[..i], keys.vals) == (env.vars, false)
      {
        assert keys.keys[..i + 1][..i] == keys.keys[..i];
        var name := keys.keys[i];
        if !(name in env.vars && env.vars[name] != "") {
          if !Settable(name, keys.vals[name]) {
            LoadedStops(old(env.vars), keys.keys, keys.vals, i + 1);
            assert keys.keys[..|keys.keys|] == keys.keys;
            return Err(ValueError);
          }
          env.vars := env.vars[name := keys.vals[name]];
        }
        i := i + 1;
      }
      assert keys.keys[..i] == keys.keys;
      r := Ok(());
    }
  }
}
