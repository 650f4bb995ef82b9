/** The Processor: builds one command line from fixed fragments and runtime
    identifiers, splits it into an argument vector, runs it through the
    process primitive and turns the captured output into lines
    (src/processor/mod.rs). */
module Processing {
  import opened Common
  import opened Text

  /** The configuration `Processor::new` stores: base command, start
      fragment, optional middle fragment, end fragment. */
  datatype Processor = Processor(base: string, start: string, middle: Option<string>, end: string)

  /** The base command that selects the settings-style layout. */
  const SettingsBase := "nvidia-settings"

  function OrEmpty(o: Option<string>): string
  {
    if o.Some? then o.value else ""
  }

  /** The command line `process` assembles for an optional device uuid and an
      optional metric key. With the settings base the uuid comes right after
      the start fragment and the key after the middle fragment; with any other
      base the key follows the start fragment and the uuid comes last. */
  function AssembleCommand(p: Processor, uuid: Option<string>, key: Option<string>): (r: string)
    ensures |r| == |p.base| + 1 + |p.start| + |OrEmpty(uuid)| + |OrEmpty(key)| + |p.end|
                   + (if p.base == SettingsBase then |OrEmpty(p.middle)| else 0)
    ensures r[..|p.base| + 1] == p.base + " "
    ensures p.base != SettingsBase ==> r[|r| - |OrEmpty(uuid)|..] == OrEmpty(uuid)
    ensures p.base == SettingsBase ==> r[|r| - |p.end|..] == p.end
  {
    if p.base == SettingsBase then
      p.base + " " + p.start + OrEmpty(uuid) + OrEmpty(p.middle) + OrEmpty(key) + p.end
    else
      p.base + " " + p.start + OrEmpty(key) + p.end + OrEmpty(uuid)
  }

  /** The argument vector built from a command line: the pieces between
      single ASCII spaces, with no quoting; an empty command has no
      arguments. */
  function Tokenise(command: string): (r: seq<string>)
    ensures command == [] <==> r == []
    ensures command != [] ==> |r| == Count(command, ' ') + 1
    ensures forall i :: 0 <= i < |r| ==> ' ' !in r[i]
    ensures command != [] ==> Join(r, ' ') == command
  {
    if command == [] then []
    else
      SplitCount(command, ' ');
      SplitPiecesFree(command, ' ');
      JoinSplit(command, ' ');
      Split(command, ' ')
  }

  /** The byte scan of `process`: a piece ends at every space, and the piece
      in progress is closed when the last character is reached. */
  method TokeniseCommand(command: string) returns (items: seq<string>)
    ensures items == Tokenise(command)
  {
    items := [];
    var start := 0;
    var i := 0;
    while i < |command|
      invariant 0 <= start <= i <= |command|
      invariant i < |command| ==> items + [command[start..i]] == Split(command[..i], ' ')
      invariant i == |command| && i > 0 ==> items == Split(command, ' ')
      invariant i == 0 ==> items == []
    {
      ScanStep(command, start, i);
      if command[i] == ' ' {
        items := items + [command[start..i]];
        start := i + 1;
      }
      if i == |command| - 1 {
        items := items + [command[start..]];
        assert command[..i + 1] == command;
      }
      i := i + 1;
    }
  }

  /** One step of the scan: the piece in progress either closes at a space
      or grows by the character read. */
  lemma ScanStep(s: string, start: nat, i: nat)
    requires start <= i < |s|
    ensures var init := Split(s[..i], ' ');
            Split(s[..i + 1], ' ') ==
              if s[i] == ' ' then init + [s[i + 1..i + 1]]
              else init[..|init| - 1] + [init[|init| - 1] + [s[i]]]
    ensures s[start..i + 1] == s[start..i] + [s[i]]
  {
    assert s[..i + 1] == s[..i] + [s[i]];
    assert s[i + 1..i + 1] == "";
    SplitSnoc(s[..i], s[i], ' ');
  }

  /** The arities `process` has an execution branch for. */
  predicate Runnable(argv: seq<string>)
  {
    2 <= |argv| <= 6
  }

  /** The argument vector handed to the process primitive, or `None` when its
      length has no branch (the "oops.." arm). */
  function Argv(p: Processor, uuid: Option<string>, key: Option<string>): (r: Option<seq<string>>)
    ensures r.Some? <==> Runnable(Tokenise(AssembleCommand(p, uuid, key)))
    ensures r.Some? ==> r.value == Tokenise(AssembleCommand(p, uuid, key))
  {
    var argv := Tokenise(AssembleCommand(p, uuid, key));
    if Runnable(argv) then Some(argv) else None
  }

  /** What the process primitive reports: captured stdout and stderr, each
      possibly absent, or a failure to launch or wait for the process. */
  datatype ExecOutcome = Finished(stdout: Option<string>, stderr: Option<string>) | SpawnFailed(message: string)

  /** Drops one trailing carriage return. */
  function StripCR(line: string): (r: string)
    ensures r == line || (line == r + "\r")
  {
    if |line| > 0 && line[|line| - 1] == '\r' then line[..|line| - 1] else line
  }

  /** `parse`, i.e. Rust's `str::lines`: lines end at '\n', a line ended by
      "\r\n" loses the '\r' as well, and a final line ending does not start
      another (empty) line. */
  function Lines(s: string): (r: seq<string>)
    ensures forall i :: 0 <= i < |r| ==> '\n' !in r[i]
    ensures s == [] <==> r == []
    decreases |s|
  {
    if s == [] then []
    else
      match Find(s, '\n')
      case None => [s]
      case Some(i) =>
        assert '\n' !in StripCR(s[..i]) by {
          assert StripCR(s[..i]) == s[..i] || StripCR(s[..i]) == s[..i][..i - 1];
        }
        [StripCR(s[..i])] + Lines(s[i + 1..])
  }

  /** The outcome table of `process` once a command has run: no stdout gives
      `Ok(None)` whatever stderr holds, stdout is parsed into lines whatever
      stderr holds, and a launch failure is passed on. */
  function Classify(o: ExecOutcome): (r: Result<Option<seq<string>>>)
    ensures o.Finished? && o.stdout.None? ==> r == Ok(None)
    ensures o.Finished? && o.stdout.Some? ==> r == Ok(Some(Lines(o.stdout.value)))
    ensures o.SpawnFailed? <==> r.Err?
    ensures r.Err? ==> r.error == o.message
  {
    match o
    case SpawnFailed(msg) => Err(msg)
    case Finished(None, _) => Ok(None)
    case Finished(Some(out), _) => Ok(Some(Lines(out)))
  }

  /** `process`: assemble, tokenise, gate on the arity, run, classify. The
      process primitive is the parameter `exec`. */
  function Process(p: Processor, uuid: Option<string>, key: Option<string>,
                   exec: seq<string> -> ExecOutcome): (r: Result<Option<seq<string>>>)
    ensures var argv := Tokenise(AssembleCommand(p, uuid, key));
            && (!Runnable(argv) ==> r == Ok(None))
            && (Runnable(argv) ==> r == Classify(exec(argv)))
    ensures r.Err? ==> exists argv :: Runnable(argv) && exec(argv) == SpawnFailed(r.error)
  {
    match Argv(p, uuid, key)
    case None => Ok(None)
    case Some(argv) => Classify(exec(argv))
  }

  /** A command whose arity has no branch never reaches the process
      primitive: the result is `Ok(None)` whatever the primitive would do. */
  lemma BadArityIgnoresExecutor(p: Processor, uuid: Option<string>, key: Option<string>,
                                exec1: seq<string> -> ExecOutcome, exec2: seq<string> -> ExecOutcome)
    requires !Runnable(Tokenise(AssembleCommand(p, uuid, key)))
    ensures Process(p, uuid, key, exec1) == Process(p, uuid, key, exec2) == Ok(None)
  {
  }

  /** Failure text on stderr without stdout is swallowed, never an error. */
  lemma StderrOnlyIsNotAnError(p: Processor, uuid: Option<string>, key: Option<string>,
                               exec: seq<string> -> ExecOutcome)
    requires forall argv :: exec(argv).Finished? && exec(argv).stdout.None?
    ensures Process(p, uuid, key, exec) == Ok(None)
  {
  }

  /** For any output, carriage returns included: there is one line per
      '\n'-piece, without the empty piece a final '\n' leaves, and every line
      ended by '\n' has one trailing '\r' dropped, while an unterminated last
      line is kept as it is. */
  lemma {:induction false} LinesArePieces(s: string)
    requires s != []
    ensures var pieces := Split(s, '\n');
            var n := if s[|s| - 1] == '\n' then |pieces| - 1 else |pieces|;
            && |Lines(s)| == n
            && forall k :: 0 <= k < n ==>
                 Lines(s)[k] == if k < |pieces| - 1 then StripCR(pieces[k]) else pieces[k]
    decreases |s|
  {
    match Find(s, '\n')
    case None =>
      SplitNoSeparator(s, '\n');
    case Some(i) =>
      var head := s[..i];
      var rest := s[i + 1..];
      var tail := Split(rest, '\n');
      assert Split(s, '\n') == [head] + tail by { SplitAtFirst(s, i, '\n'); }
      assert Lines(s) == [StripCR(head)] + Lines(rest);
      if rest != [] {
        assert s[|s| - 1] == rest[|rest| - 1];
        LinesArePieces(rest);
      }
  }

  /** For carriage-return-free output, the lines are the '\n'-pieces of the
      output, without the empty piece a final '\n' leaves. */
  lemma {:induction false} LinesAreSplit(s: string)
    requires s != [] && '\r' !in s
    ensures var pieces := Split(s, '\n');
            Lines(s) == if s[|s| - 1] == '\n' then pieces[..|pieces| - 1] else pieces
    decreases |s|, 1
  {
    match Find(s, '\n')
    case None =>
      SplitNoSeparator(s, '\n');
    case Some(i) =>
      LinesAreSplitAt(s, i);
  }

  /** The step of `LinesAreSplit` at the first line ending, index `i`. */
  lemma {:induction false} LinesAreSplitAt(s: string, i: nat)
    requires '\r' !in s && Find(s, '\n') == Some(i)
    ensures var pieces := Split(s, '\n');
            Lines(s) == if s[|s| - 1] == '\n' then pieces[..|pieces| - 1] else pieces
    decreases |s|, 0
  {
    var head := s[..i];
    var rest := s[i + 1..];
    var tail := Split(rest, '\n');
    assert Split(s, '\n') == [head] + tail by { SplitAtFirst(s, i, '\n'); }
    assert Lines(s) == [head] + Lines(rest) by { CRFreeParts(s, i); }
    if rest == [] {
      assert s[|s| - 1] == '\n';
      assert ([head] + tail)[..1] == [head];
    } else {
      assert Lines(rest) == if s[|s| - 1] == '\n' then tail[..|tail| - 1] else tail by {
        CRFreeParts(s, i);
        LinesAreSplit(rest);
        assert s[|s| - 1] == rest[|rest| - 1];
      }
      DropLast(head, tail);
    }
  }

  /** Dropping the last piece commutes with adding a first one. */
  lemma DropLast(head: string, tail: seq<string>)
    requires |tail| >= 1
    ensures ([head] + tail)[..|tail|] == [head] + tail[..|tail| - 1]
  {
  }

  lemma CRFreeParts(s: string, i: nat)
    requires i < |s| && '\r' !in s
    ensures StripCR(s[..i]) == s[..i]
    ensures '\r' !in s[i + 1..]
  {
    if i > 0 { assert s[..i][i - 1] == s[i - 1]; }
    var rest := s[i + 1..];
    forall j | 0 <= j < |rest| ensures rest[j] != '\r' {
      assert rest[j] == s[i + 1 + j];
    }
  }

  /** Carriage-return-free output is reproduced by joining its lines with
      '\n' and restoring a final '\n' when there was one. */
  lemma LinesJoin(s: string)
    requires '\r' !in s
    ensures Join(Lines(s), '\n') + (if s != [] && s[|s| - 1] == '\n' then "\n" else "") == s
  {
    if s != [] {
      LinesAreSplit(s);
      JoinSplit(s, '\n');
      var pieces := Split(s, '\n');
      if s[|s| - 1] == '\n' {
        var t := s[..|s| - 1];
        assert s == t + ['\n'];
        SplitSnoc(t, '\n', '\n');
        assert pieces == Split(t, '\n') + [""];
        assert pieces[..|pieces| - 1] == Split(t, '\n');
        JoinSnoc(Split(t, '\n'), "", '\n');
      }
    }
  }

  /** The converse: lines without '\n' or '\r', written out one per line,
      parse back to themselves. */
  lemma LinesOfJoin(ls: seq<string>)
    requires |ls| >= 1
    requires forall i :: 0 <= i < |ls| ==> '\n' !in ls[i] && '\r' !in ls[i]
    ensures Lines(Join(ls, '\n') + "\n") == ls
  {
    var body := Join(ls, '\n');
    JoinFree(ls, '\n', '\r');
    var s := body + "\n";
    assert '\r' !in s;
    LinesAreSplit(s);
    SplitJoin(ls, '\n');
    assert s == body + ['\n'] + "";
    SplitAppend(body, "", '\n');
    assert Split("", '\n') == [""];
    assert Split(s, '\n') == ls + [""];
    assert (ls + [""])[..|ls|] == ls;
  }

  /** Joining pieces free of `d` with a separator other than `d` gives a
      string free of `d`. */
  lemma {:induction false} JoinFree(pieces: seq<string>, c: char, d: char)
    requires c != d
    requires forall i :: 0 <= i < |pieces| ==> d !in pieces[i]
    ensures d !in Join(pieces, c)
  {
    if |pieces| > 1 {
      JoinFree(pieces[..|pieces| - 1], c, d);
    }
  }
}
