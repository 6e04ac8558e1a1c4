/**
 * `MediafireDownloader.download_file`, run by one worker for one file entry,
 * with every outside influence made an input: the local file (and its hash),
 * when the shared event becomes set, the `head` reply, the result of the
 * interstitial extraction and the chunks the body stream delivers.
 */
module Worker {
  import opened Common
  import opened Names

  /**
   * When the shared event becomes set, counted in checks of it: check 0 is
   * the one before any request, check `j + 1` the one made after chunk `j`
   * arrives, and the check after the streaming loop is the next one. Once
   * set, the event stays set; `Never` also stands for a worker without one.
   */
  datatype Schedule = Never | SetFrom(check: nat)

  predicate IsSet(e: Schedule, check: nat)
  {
    e.SetFrom? && e.check <= check
  }

  /** The `head` request: it raised, or it answered with or without gzip encoding. */
  datatype HeadReply = HeadFailed | Headers(gzip: bool)

  /**
   * The streamed `get`: it raised or `raise_for_status` did, or it delivered
   * `chunks`, after which it raises when `breaks` holds.
   */
  datatype Body = BadStatus | Chunks(chunks: seq<seq<byte>>, breaks: bool)

  /** Everything the worker receives from outside for one file. */
  datatype Request = Request(
    entry: FileEntry,
    limited: bool,
    event: Schedule,
    head: HeadReply,
    interstitial: Option<string>,
    body: Body)

  /** Python's `str.isalnum` and the local hash (SHA-256 hex digest of the contents). */
  datatype Env = Env(alnum: char -> bool, digest: seq<byte> -> string)

  datatype Outcome = Skipped | CancelledBeforeStart | Blocked | CancelledMidStream | Completed | Failed

  /** What the worker does to the outside world, in order. */
  datatype Action =
    | Acquire
    | Release
    | Head(url: string)
    | FetchPage(url: string)
    | FetchBody(url: string)
    | Open(name: string)
    | Write(name: string, data: seq<byte>)
    | Remove(name: string)

  predicate IsNetwork(a: Action)
  {
    a.Head? || a.FetchPage? || a.FetchBody?
  }

  /** The local file name: the normalised remote name. */
  function LocalName(env: Env, r: Request): string
  {
    Normalize(env.alnum, r.entry.filename)
  }

  /** The local file exists and its hash is the one the service reports. */
  predicate UpToDate(env: Env, r: Request, files: map<string, seq<byte>>)
  {
    var name := LocalName(env, r);
    name in files && env.digest(files[name]) == r.entry.hash
  }

  /** The number of chunks written before the event is seen set (all of them if it never is). */
  function StopAt(e: Schedule, n: nat): (j: nat)
    ensures j <= n
    ensures 0 < j ==> !IsSet(e, j)
    ensures j < n ==> IsSet(e, j + 1)
  {
    match e
    case Never => n
    case SetFrom(c) => if c <= 1 then 0 else if c - 1 < n then c - 1 else n
  }

  /** The bytes of `cs`, one chunk after another. */
  function Concat(cs: seq<seq<byte>>): seq<byte>
  {
    if cs == [] then [] else Concat(cs[..|cs| - 1]) + cs[|cs| - 1]
  }

  /** One `Write` per non-empty chunk: the `if chunk:` guard. */
  function Writes(name: string, cs: seq<seq<byte>>): seq<Action>
  {
    if cs == [] then []
    else Writes(name, cs[..|cs| - 1]) + (if cs[|cs| - 1] == [] then [] else [Write(name, cs[|cs| - 1])])
  }

  /** The result of one worker run: its outcome, the new files, the permits held, its actions. */
  datatype Run = Run(outcome: Outcome, files: map<string, seq<byte>>, held: nat, actions: seq<Action>)

  /**
   * The run, starting from local `files` with `held` permits of the limiter
   * held by others: take a permit, then decide and fetch.
   */
  function Download(env: Env, r: Request, files: map<string, seq<byte>>, held: nat): (run: Run)
    ensures run.outcome == Skipped <==> UpToDate(env, r, files)
    ensures r.limited ==> run.actions != [] && run.actions[0] == Acquire
  {
    After(if r.limited then [Acquire] else [], Checked(env, r, files, held))
  }

  /** `run`, preceded by `actions`. */
  function After(actions: seq<Action>, run: Run): Run
  {
    run.(actions := actions + run.actions)
  }

  /** A normal return: the permit taken at the start goes back. */
  function Finish(r: Request, outcome: Outcome, files: map<string, seq<byte>>, held: nat,
                  actions: seq<Action>): Run
  {
    Run(outcome, files, held, actions + if r.limited then [Release] else [])
  }

  /** An exception escapes: the permit taken at the start stays taken. */
  function Leaked(r: Request, held: nat): nat
  {
    held + if r.limited then 1 else 0
  }

  /** The up-to-date check, then the cancellation check. */
  function Checked(env: Env, r: Request, files: map<string, seq<byte>>, held: nat): (run: Run)
    ensures run.outcome == Skipped <==> UpToDate(env, r, files)
    ensures run.outcome == CancelledBeforeStart <==> !UpToDate(env, r, files) && IsSet(r.event, 0)
  {
    if UpToDate(env, r, files) then Finish(r, Skipped, files, held, [])
    else if IsSet(r.event, 0) then Finish(r, CancelledBeforeStart, files, held, [])
    else Fetched(env, r, files, held)
  }

  /** The `head` request and, for a gzip-encoded reply, the interstitial page. */
  function Fetched(env: Env, r: Request, files: map<string, seq<byte>>, held: nat): (run: Run)
    ensures run.outcome == Blocked <==> r.head.HeadFailed? || (r.head.gzip && r.interstitial.None?)
    ensures run.outcome != Skipped && run.outcome != CancelledBeforeStart
  {
    var link := r.entry.normalDownload;
    match r.head
    case HeadFailed => Finish(r, Blocked, files, held, [Head(link)])
    case Headers(false) => After([Head(link)], Stream(env, r, files, held, link))
    case Headers(true) =>
      match r.interstitial
      case None => Finish(r, Blocked, files, held, [Head(link), FetchPage(link)])
      case Some(anchor) => After([Head(link), FetchPage(link)], Stream(env, r, files, held, anchor))
  }

  /** From the request for the body of `link` on. */
  function Stream(env: Env, r: Request, files: map<string, seq<byte>>, held: nat, link: string): (run: Run)
    ensures run.outcome == Failed || run.outcome == CancelledMidStream || run.outcome == Completed
    ensures run.outcome == Failed <==>
            r.body.BadStatus? || (StopAt(r.event, |r.body.chunks|) == |r.body.chunks| && r.body.breaks)
    ensures run.outcome == Failed ==> run.held == Leaked(r, held)
    ensures run.outcome != Failed ==> run.held == held
  {
    var name := LocalName(env, r);
    match r.body
    case BadStatus => Run(Failed, files, Leaked(r, held), [FetchBody(link)])
    case Chunks(cs, breaks) =>
      After([FetchBody(link), Open(name)], Ending(r, name, files, held, cs, breaks))
  }

  /** The streaming loop over `cs` and what follows it. */
  function Ending(r: Request, name: string, files: map<string, seq<byte>>, held: nat,
                  cs: seq<seq<byte>>, breaks: bool): (run: Run)
    ensures run.outcome == Failed || run.outcome == CancelledMidStream || run.outcome == Completed
    ensures run.outcome == Failed <==> StopAt(r.event, |cs|) == |cs| && breaks
    ensures run.outcome == Failed ==> run.held == Leaked(r, held)
    ensures run.outcome != Failed ==> run.held == held
  {
    var j := StopAt(r.event, |cs|);
    var written := files[name := Concat(cs[..j])];
    var finalCheck := if j < |cs| then j + 2 else |cs| + 1;
    if j == |cs| && breaks then
      Run(Failed, written, Leaked(r, held), Writes(name, cs[..j]))
    else if IsSet(r.event, finalCheck) then
      Finish(r, CancelledMidStream, files - {name}, held, Writes(name, cs[..j]) + [Remove(name)])
    else
      Finish(r, Completed, written, held, Writes(name, cs[..j]))
  }

  /**
   * The local side a worker changes: the files of the current directory, the
   * number of permits of the shared limiter currently held, and the log of
   * actions taken.
   */
  class Host {
    var files: map<string, seq<byte>>
    var held: nat
    var log: seq<Action>

    constructor (files0: map<string, seq<byte>>)
      ensures files == files0 && held == 0 && log == []
    {
      files, held, log := files0, 0, [];
    }

    /** `limiter.acquire()`; waiting for a free permit is not modelled. */
    method AcquirePermit()
      modifies this
      ensures files == old(files) && held == old(held) + 1 && log == old(log) + [Acquire]
    {
      held := held + 1;
      log := log + [Acquire];
    }

    /** `limiter.release()`. */
    method ReleasePermit()
      requires held > 0
      modifies this
      ensures files == old(files) && held == old(held) - 1 && log == old(log) + [Release]
    {
      held := held - 1;
      log := log + [Release];
    }

    /** `download_file(file, event, limiter)`. */
    method DownloadFile(env: Env, r: Request) returns (outcome: Outcome)
      modifies this
      ensures var run := Download(env, r, old(files), old(held));
              outcome == run.outcome && files == run.files && held == run.held
              && log == old(log) + run.actions
    {
      if r.limited {
        AcquirePermit();
      }
      outcome := CheckThenFetch(env, r, old(held));
    }

    /** The permit is held; the up-to-date and cancellation checks. */
    method CheckThenFetch(env: Env, r: Request, ghost held0: nat) returns (outcome: Outcome)
      requires held == Leaked(r, held0)
      modifies this
      ensures var run := Checked(env, r, old(files), held0);
              outcome == run.outcome && files == run.files && held == run.held
              && log == old(log) + run.actions
    {
      var name := Normalize(env.alnum, r.entry.filename);
      if name in files && env.digest(files[name]) == r.entry.hash {
        outcome := Skipped;
      } else if IsSet(r.event, 0) {
        outcome := CancelledBeforeStart;
      } else {
        outcome := FetchLink(env, r, held0);
        return;
      }
      if r.limited {
        ReleasePermit();
      }
    }

    /** The `try` block around `head` and the interstitial extraction. */
    method FetchLink(env: Env, r: Request, ghost held0: nat) returns (outcome: Outcome)
      requires held == Leaked(r, held0)
      modifies this
      ensures var run := Fetched(env, r, old(files), held0);
              outcome == run.outcome && files == run.files && held == run.held
              && log == old(log) + run.actions
    {
      var link := r.entry.normalDownload;
      log := log + [Head(link)];
      if r.head.Headers? && r.head.gzip {
        log := log + [FetchPage(link)];
      }
      if r.head.HeadFailed? || (r.head.gzip && r.interstitial.None?) {
        if r.limited {
          ReleasePermit();
        }
        return Blocked;
      }
      if r.head.gzip {
        link := r.interstitial.value;
      }
      outcome := StreamBody(env, r, link, held0);
    }

    /** From `get(download_link, stream=True)` to the end of `download_file`. */
    method StreamBody(env: Env, r: Request, link: string, ghost held0: nat) returns (outcome: Outcome)
      requires held == Leaked(r, held0)
      modifies this
      ensures var run := Stream(env, r, old(files), held0, link);
              outcome == run.outcome && files == run.files && held == run.held
              && log == old(log) + run.actions
    {
      var name := Normalize(env.alnum, r.entry.filename);
      log := log + [FetchBody(link)];
      if r.body.BadStatus? {
        return Failed;
      }
      ghost var files0 := files;
      files := files[name := []];
      log := log + [Open(name)];
      outcome := Pump(r, name, r.body.chunks, r.body.breaks, files0, held0);
    }

    /** `with open(filename, "wb")`: the loop, then the final event check. */
    method Pump(r: Request, name: string, cs: seq<seq<byte>>, breaks: bool,
                ghost files0: map<string, seq<byte>>, ghost held0: nat) returns (outcome: Outcome)
      requires files == files0[name := []] && held == Leaked(r, held0)
      modifies this
      ensures var run := Ending(r, name, files0, held0, cs, breaks);
              outcome == run.outcome && files == run.files && held == run.held
              && log == old(log) + run.actions
    {
      var i, stopped := WriteChunks(name, cs, r.event);
      assert files == files0[name := Concat(cs[..i])];
      if !stopped && breaks {
        return Failed;
      }
      if IsSet(r.event, if stopped then i + 2 else i + 1) {
        files := files - {name};
        assert files == files0 - {name};
        log := log + [Remove(name)];
        outcome := CancelledMidStream;
      } else {
        outcome := Completed;
      }
      if r.limited {
        ReleasePermit();
      }
    }

    /** `for chunk in r.iter_content(...)`: check the event, write non-empty chunks. */
    method WriteChunks(name: string, cs: seq<seq<byte>>, event: Schedule) returns (i: nat, stopped: bool)
      requires name in files && files[name] == []
      modifies this
      ensures i == StopAt(event, |cs|) && (stopped <==> i < |cs|)
      ensures files == old(files)[name := Concat(cs[..i])]
      ensures log == old(log) + Writes(name, cs[..i])
      ensures held == old(held)
    {
      i, stopped := 0, false;
      while i < |cs|
        invariant i <= |cs|
        invariant 0 < i ==> !IsSet(event, i)
        invariant files == old(files)[name := Concat(cs[..i])]
        invariant log == old(log) + Writes(name, cs[..i])
        invariant held == old(held)
      {
        if IsSet(event, i + 1) {
          stopped := true;
          break;
        }
        assert cs[..i + 1][..i] == cs[..i];
        assert Concat(cs[..i + 1]) == Concat(cs[..i]) + cs[i];
        if cs[i] != [] {
          files := files[name := files[name] + cs[i]];
          log := log + [Write(name, cs[i])];
          assert files == old(files)[name := Concat(cs[..i + 1])];
        } else {
          assert Concat(cs[..i]) + cs[i] == Concat(cs[..i]);
        }
        i := i + 1;
      }
    }
  }

  // ---------------------------------------------------------------------
  // Properties of a worker run
  // ---------------------------------------------------------------------

  predicate IsPermitOp(a: Action)
  {
    a.Acquire? || a.Release?
  }

  /** The actions of `acts` that `keep` selects, in order. */
  function Select(acts: seq<Action>, keep: Action -> bool): (r: seq<Action>)
    ensures forall a :: a in r ==> a in acts && keep(a)
  {
    if acts == [] then []
    else Select(acts[..|acts| - 1], keep) + if keep(acts[|acts| - 1]) then [acts[|acts| - 1]] else []
  }

  lemma {:induction false} SelectAppend(a: seq<Action>, b: seq<Action>, keep: Action -> bool)
    ensures Select(a + b, keep) == Select(a, keep) + Select(b, keep)
    decreases |b|
  {
    if b != [] {
      assert (a + b)[..|a + b| - 1] == a + b[..|b| - 1];
      SelectAppend(a, b[..|b| - 1], keep);
    } else {
      assert a + b == a;
    }
  }

  lemma {:induction false} SelectNone(acts: seq<Action>, keep: Action -> bool)
    requires forall a :: a in acts ==> !keep(a)
    ensures Select(acts, keep) == []
  {
    if acts != [] {
      assert forall a :: a in acts[..|acts| - 1] ==> a in acts;
      SelectNone(acts[..|acts| - 1], keep);
    }
  }

  /** The bytes the `Write` actions of `acts` write, in order. */
  function Data(acts: seq<Action>): seq<byte>
  {
    if acts == [] then []
    else Data(acts[..|acts| - 1]) + if acts[|acts| - 1].Write? then acts[|acts| - 1].data else []
  }

  lemma {:induction false} DataAppend(a: seq<Action>, b: seq<Action>)
    ensures Data(a + b) == Data(a) + Data(b)
    decreases |b|
  {
    if b != [] {
      assert (a + b)[..|a + b| - 1] == a + b[..|b| - 1];
      DataAppend(a, b[..|b| - 1]);
    } else {
      assert a + b == a;
    }
  }

  /** The last chunk's contribution to `Writes`. */
  function LastWrite(name: string, chunk: seq<byte>): seq<Action>
  {
    if chunk == [] then [] else [Write(name, chunk)]
  }

  lemma {:induction false} WritesSplit(name: string, cs: seq<seq<byte>>)
    requires cs != []
    ensures Writes(name, cs) == Writes(name, cs[..|cs| - 1]) + LastWrite(name, cs[|cs| - 1])
  {
  }

  /** Each action of the streaming loop writes one non-empty chunk to `name`. */
  lemma {:induction false} WritesShape(name: string, cs: seq<seq<byte>>)
    ensures forall a :: a in Writes(name, cs) ==> a.Write? && a.name == name && a.data != []
  {
    if cs != [] {
      WritesShape(name, cs[..|cs| - 1]);
      WritesSplit(name, cs);
    }
  }

  /**
   * The streaming loop takes no permit and makes no request, and its writes
   * together write the chunks' bytes.
   */
  lemma {:induction false} WritesFacts(name: string, cs: seq<seq<byte>>)
    ensures Select(Writes(name, cs), IsPermitOp) == [] && Select(Writes(name, cs), IsNetwork) == []
    ensures Data(Writes(name, cs)) == Concat(cs)
  {
    if cs != [] {
      var init, last := cs[..|cs| - 1], cs[|cs| - 1];
      WritesFacts(name, init);
      WritesSplit(name, cs);
      var tail := LastWrite(name, last);
      SelectAppend(Writes(name, init), tail, IsPermitOp);
      SelectAppend(Writes(name, init), tail, IsNetwork);
      DataAppend(Writes(name, init), tail);
      if last != [] {
        assert tail[..0] == [];
      }
    }
  }

  /**
   * An up-to-date local file is skipped without any request, whatever the
   * event says: the hash check comes before the cancellation check.
   */
  lemma SkipsUpToDate(env: Env, r: Request, files: map<string, seq<byte>>, held: nat)
    requires UpToDate(env, r, files)
    ensures var run := Download(env, r, files, held);
            run.outcome == Skipped && run.files == files && Select(run.actions, IsNetwork) == []
  {
    var acts := Download(env, r, files, held).actions;
    assert forall a :: a in acts ==> IsPermitOp(a);
    SelectNone(acts, IsNetwork);
  }

  /** With the event already set, a file that is not up to date is left alone and nothing is requested. */
  lemma CancelsBeforeStart(env: Env, r: Request, files: map<string, seq<byte>>, held: nat)
    requires !UpToDate(env, r, files) && IsSet(r.event, 0)
    ensures var run := Download(env, r, files, held);
            run.outcome == CancelledBeforeStart && run.files == files
            && Select(run.actions, IsNetwork) == []
  {
    var acts := Download(env, r, files, held).actions;
    assert forall a :: a in acts ==> IsPermitOp(a);
    SelectNone(acts, IsNetwork);
  }

  /**
   * After the permit is taken: a normal return hands it back exactly once,
   * as the last action; an escaping exception keeps it.
   */
  ghost predicate ReleasesOnce(r: Request, held: nat, run: Run)
  {
    if run.outcome == Failed then
      run.held == Leaked(r, held) && Select(run.actions, IsPermitOp) == []
    else
      run.held == held && Select(run.actions, IsPermitOp) == (if r.limited then [Release] else [])
      && (r.limited ==> run.actions != [] && run.actions[|run.actions| - 1] == Release)
  }

  lemma FinishReleases(r: Request, outcome: Outcome, files: map<string, seq<byte>>, held: nat, acts: seq<Action>)
    requires outcome != Failed && Select(acts, IsPermitOp) == []
    ensures ReleasesOnce(r, held, Finish(r, outcome, files, held, acts))
  {
    var tail := if r.limited then [Release] else [];
    SelectAppend(acts, tail, IsPermitOp);
    assert Select(tail, IsPermitOp) == tail by {
      if r.limited { assert tail[..0] == []; }
    }
  }

  lemma AfterReleases(r: Request, held: nat, acts: seq<Action>, run: Run)
    requires Select(acts, IsPermitOp) == [] && ReleasesOnce(r, held, run)
    ensures ReleasesOnce(r, held, After(acts, run))
  {
    SelectAppend(acts, run.actions, IsPermitOp);
  }

  lemma NoPermitOps(acts: seq<Action>)
    requires forall a :: a in acts ==> !IsPermitOp(a)
    ensures Select(acts, IsPermitOp) == []
  {
    SelectNone(acts, IsPermitOp);
  }

  lemma EndingReleases(r: Request, name: string, files: map<string, seq<byte>>, held: nat,
                       cs: seq<seq<byte>>, breaks: bool)
    ensures ReleasesOnce(r, held, Ending(r, name, files, held, cs, breaks))
  {
    var j := StopAt(r.event, |cs|);
    var w := Writes(name, cs[..j]);
    WritesFacts(name, cs[..j]);
    var finalCheck := if j < |cs| then j + 2 else |cs| + 1;
    if j == |cs| && breaks {
    } else if IsSet(r.event, finalCheck) {
      NoPermitOps([Remove(name)]);
      SelectAppend(w, [Remove(name)], IsPermitOp);
      FinishReleases(r, CancelledMidStream, files - {name}, held, w + [Remove(name)]);
    } else {
      FinishReleases(r, Completed, files[name := Concat(cs[..j])], held, w);
    }
  }

  lemma StreamReleases(env: Env, r: Request, files: map<string, seq<byte>>, held: nat, link: string)
    ensures ReleasesOnce(r, held, Stream(env, r, files, held, link))
  {
    var name := LocalName(env, r);
    match r.body
    case BadStatus =>
      NoPermitOps([FetchBody(link)]);
    case Chunks(cs, breaks) =>
      NoPermitOps([FetchBody(link), Open(name)]);
      EndingReleases(r, name, files, held, cs, breaks);
      AfterReleases(r, held, [FetchBody(link), Open(name)], Ending(r, name, files, held, cs, breaks));
  }

  lemma FetchedReleases(env: Env, r: Request, files: map<string, seq<byte>>, held: nat)
    ensures ReleasesOnce(r, held, Fetched(env, r, files, held))
  {
    var link := r.entry.normalDownload;
    match r.head
    case HeadFailed =>
      NoPermitOps([Head(link)]);
      FinishReleases(r, Blocked, files, held, [Head(link)]);
    case Headers(false) =>
      NoPermitOps([Head(link)]);
      StreamReleases(env, r, files, held, link);
      AfterReleases(r, held, [Head(link)], Stream(env, r, files, held, link));
    case Headers(true) =>
      NoPermitOps([Head(link), FetchPage(link)]);
      match r.interstitial
      case None =>
        FinishReleases(r, Blocked, files, held, [Head(link), FetchPage(link)]);
      case Some(anchor) =>
        StreamReleases(env, r, files, held, anchor);
        AfterReleases(r, held, [Head(link), FetchPage(link)], Stream(env, r, files, held, anchor));
  }

  /**
   * Permit balance: on every path that returns normally the permit taken at
   * the start is given back exactly once, as the last action, and the number
   * of permits held is as before; only an escaping exception (`Failed`)
   * keeps it. Without a limiter nothing is taken or given back.
   */
  lemma PermitBalance(env: Env, r: Request, files: map<string, seq<byte>>, held: nat)
    ensures var run := Download(env, r, files, held);
            var taken := if r.limited then [Acquire] else [];
            (run.outcome != Failed ==>
               run.held == held
               && Select(run.actions, IsPermitOp) == taken + (if r.limited then [Release] else [])
               && (r.limited ==> run.actions[0] == Acquire && run.actions[|run.actions| - 1] == Release))
            && (run.outcome == Failed ==>
                  run.held == held + |taken| && Select(run.actions, IsPermitOp) == taken)
  {
    var taken := if r.limited then [Acquire] else [];
    var inner := Checked(env, r, files, held);
    if UpToDate(env, r, files) || IsSet(r.event, 0) {
      NoPermitOps([]);
      FinishReleases(r, inner.outcome, files, held, []);
    } else {
      FetchedReleases(env, r, files, held);
    }
    SelectAppend(taken, inner.actions, IsPermitOp);
    assert Select(taken, IsPermitOp) == taken by {
      if r.limited { assert taken[..0] == []; }
    }
  }

  /**
   * The link the body is streamed from: the normal download link, replaced
   * by the interstitial page's anchor when `head` reports gzip encoding;
   * `None` when the `try` block fails.
   */
  function BodyLink(r: Request): Option<string>
  {
    match r.head
    case HeadFailed => None
    case Headers(gzip) => if gzip then r.interstitial else Some(r.entry.normalDownload)
  }

  /** Neither the up-to-date check nor the cancellation check returns early. */
  predicate Proceeds(env: Env, r: Request, files: map<string, seq<byte>>)
  {
    !UpToDate(env, r, files) && !IsSet(r.event, 0)
  }

  /** The actions before the body is requested, once the permit is held. */
  function Preamble(r: Request): seq<Action>
  {
    var link := r.entry.normalDownload;
    if r.head.Headers? && r.head.gzip then [Head(link), FetchPage(link)] else [Head(link)]
  }

  lemma {:induction false} ProceedsToStream(env: Env, r: Request, files: map<string, seq<byte>>, held: nat)
    requires Proceeds(env, r, files) && BodyLink(r).Some?
    ensures Download(env, r, files, held)
            == After((if r.limited then [Acquire] else []) + Preamble(r),
                     Stream(env, r, files, held, BodyLink(r).value))
  {
  }

  /**
   * A worker is blocked exactly when it gets past both checks and the `head`
   * request or the interstitial extraction fails; it then leaves the files
   * alone and never requests a body.
   */
  lemma BlockedIff(env: Env, r: Request, files: map<string, seq<byte>>, held: nat)
    ensures var run := Download(env, r, files, held);
            run.outcome == Blocked <==> Proceeds(env, r, files) && BodyLink(r).None?
    ensures var run := Download(env, r, files, held);
            run.outcome == Blocked ==> run.files == files && forall a :: a in run.actions ==> !a.FetchBody?
  {
    if Proceeds(env, r, files) && BodyLink(r).Some? {
      ProceedsToStream(env, r, files, held);
      if r.body.Chunks? {
        var cs := r.body.chunks;
        assert Ending(r, LocalName(env, r), files, held, cs, r.body.breaks).outcome != Blocked;
      }
    }
  }

  /**
   * The body is requested at most once, from `BodyLink`: the interstitial
   * anchor after a gzip-encoded `head` reply, otherwise the normal link.
   */
  lemma {:induction false} BodyRequest(env: Env, r: Request, files: map<string, seq<byte>>, held: nat, u: string)
    ensures var run := Download(env, r, files, held);
            FetchBody(u) in run.actions <==> Proceeds(env, r, files) && BodyLink(r) == Some(u)
  {
    var run := Download(env, r, files, held);
    var taken := if r.limited then [Acquire] else [];
    if Proceeds(env, r, files) && BodyLink(r).Some? {
      ProceedsToStream(env, r, files, held);
      var link := BodyLink(r).value;
      var inner := Stream(env, r, files, held, link);
      assert run.actions == taken + Preamble(r) + inner.actions;
      assert FetchBody(u) !in taken + Preamble(r);
      if r.body.Chunks? {
        var cs := r.body.chunks;
        var name := LocalName(env, r);
        var ending := Ending(r, name, files, held, cs, r.body.breaks);
        var w := Writes(name, cs[..StopAt(r.event, |cs|)]);
        WritesShape(name, cs[..StopAt(r.event, |cs|)]);
        assert FetchBody(u) !in ending.actions by {
          assert ending.actions == w || ending.actions == w + [Remove(name)]
                 || ending.actions == w + [Release] || ending.actions == w + [Remove(name)] + [Release];
        }
        assert inner.actions == [FetchBody(link), Open(name)] + ending.actions;
      }
    } else {
      assert forall a :: a in run.actions ==> !a.FetchBody?;
    }
  }

  /**
   * The streaming loop and what follows it write exactly the chunks that
   * arrived before a check saw the event set, each as one non-empty write.
   */
  lemma {:induction false} EndingData(r: Request, name: string, files: map<string, seq<byte>>, held: nat,
                                      cs: seq<seq<byte>>, breaks: bool)
    ensures var run := Ending(r, name, files, held, cs, breaks);
            Data(run.actions) == Concat(cs[..StopAt(r.event, |cs|)])
            && (forall a :: a in run.actions && a.Write? ==> a.name == name && a.data != [])
  {
    var j := StopAt(r.event, |cs|);
    var finalCheck := if j < |cs| then j + 2 else |cs| + 1;
    var release := if r.limited then [Release] else [];
    if j == |cs| && breaks {
      assert Writes(name, cs[..j]) + [] == Writes(name, cs[..j]);
      WritesThen(name, cs[..j], []);
    } else if IsSet(r.event, finalCheck) {
      var w := Writes(name, cs[..j]);
      assert w + [Remove(name)] + release == w + ([Remove(name)] + release);
      WritesThen(name, cs[..j], [Remove(name)] + release);
    } else {
      WritesThen(name, cs[..j], release);
    }
  }

  /** The writes of the loop followed by actions that write nothing. */
  lemma {:induction false} WritesThen(name: string, cs: seq<seq<byte>>, tail: seq<Action>)
    requires forall a :: a in tail ==> !a.Write?
    ensures Data(Writes(name, cs) + tail) == Concat(cs)
    ensures forall a :: a in Writes(name, cs) + tail && a.Write? ==> a.name == name && a.data != []
  {
    WritesShape(name, cs);
    WritesFacts(name, cs);
    NoData(tail);
    DataAppend(Writes(name, cs), tail);
  }

  /**
   * The run completes only when every chunk was written and no check, the
   * one after the loop included, saw the event; a run the event cancels
   * leaves no file behind, even when every chunk had been written; a
   * completed run replaces any stale contents with the whole body.
   */
  lemma {:induction false} EndingOutcome(r: Request, name: string, files: map<string, seq<byte>>, held: nat,
                                         cs: seq<seq<byte>>, breaks: bool)
    ensures var run := Ending(r, name, files, held, cs, breaks);
            var j := StopAt(r.event, |cs|);
            (run.outcome == Completed <==> j == |cs| && !breaks && !IsSet(r.event, |cs| + 1))
            && (run.outcome == CancelledMidStream <==> IsSet(r.event, |cs| + 1) && !(j == |cs| && breaks))
            && (run.outcome == CancelledMidStream ==> run.files == files - {name})
            && (run.outcome == Completed ==> run.files == files[name := Concat(cs)])
  {
    var j := StopAt(r.event, |cs|);
    var finalCheck := if j < |cs| then j + 2 else |cs| + 1;
    assert IsSet(r.event, finalCheck) <==> IsSet(r.event, |cs| + 1);
    assert cs[..|cs|] == cs;
  }

  /**
   * The same facts for a whole worker run that gets to stream a body: the
   * permit and the requests before it write nothing.
   */
  lemma {:induction false} Streaming(env: Env, r: Request, files: map<string, seq<byte>>, held: nat)
    requires Proceeds(env, r, files) && BodyLink(r).Some? && r.body.Chunks?
    ensures var run := Download(env, r, files, held);
            var cs := r.body.chunks;
            var j := StopAt(r.event, |cs|);
            var name := LocalName(env, r);
            Data(run.actions) == Concat(cs[..j])
            && (forall a :: a in run.actions && a.Write? ==> a.name == name && a.data != [])
            && (run.outcome == Completed <==> j == |cs| && !r.body.breaks && !IsSet(r.event, |cs| + 1))
            && (run.outcome == CancelledMidStream <==> IsSet(r.event, |cs| + 1) && !(j == |cs| && r.body.breaks))
            && (run.outcome == CancelledMidStream ==> run.files == files - {name})
            && (run.outcome == Completed ==> run.files == files[name := Concat(cs)])
  {
    var cs := r.body.chunks;
    var name := LocalName(env, r);
    var ending := Ending(r, name, files, held, cs, r.body.breaks);
    StreamsThrough(env, r, files, held);
    EndingData(r, name, files, held, cs, r.body.breaks);
    EndingOutcome(r, name, files, held, cs, r.body.breaks);
    NoDataBefore(StreamPrefix(env, r), ending.actions);
  }

  /** The actions of a run that streams a body, up to the streaming loop. */
  function StreamPrefix(env: Env, r: Request): seq<Action>
    requires BodyLink(r).Some?
  {
    (if r.limited then [Acquire] else []) + Preamble(r) + [FetchBody(BodyLink(r).value), Open(LocalName(env, r))]
  }

  lemma {:induction false} StreamsThrough(env: Env, r: Request, files: map<string, seq<byte>>, held: nat)
    requires Proceeds(env, r, files) && BodyLink(r).Some? && r.body.Chunks?
    ensures (forall a :: a in StreamPrefix(env, r) ==> !a.Write?)
            && Download(env, r, files, held)
               == After(StreamPrefix(env, r), Ending(r, LocalName(env, r), files, held, r.body.chunks, r.body.breaks))
  {
    ProceedsToStream(env, r, files, held);
  }

  /** Actions that write nothing, put in front, change nothing written. */
  lemma {:induction false} NoDataBefore(pre: seq<Action>, acts: seq<Action>)
    requires forall a :: a in pre ==> !a.Write?
    ensures Data(pre + acts) == Data(acts)
    ensures forall a :: a in pre + acts && a.Write? ==> a in acts
  {
    NoData(pre);
    DataAppend(pre, acts);
  }

  lemma {:induction false} NoData(acts: seq<Action>)
    requires forall a :: a in acts ==> !a.Write?
    ensures Data(acts) == []
  {
    if acts != [] {
      assert forall a :: a in acts[..|acts| - 1] ==> a in acts;
      NoData(acts[..|acts| - 1]);
    }
  }
  /**
   * Idempotence: once a download has completed with a body whose hash is
   * the one the service reports, downloading the same entry again is
   * skipped, and so makes no request.
   */
  lemma RerunSkips(env: Env, r: Request, files: map<string, seq<byte>>, held: nat, r2: Request, held2: nat)
    requires Download(env, r, files, held).outcome == Completed
    requires r.body.Chunks? && env.digest(Concat(r.body.chunks)) == r.entry.hash
    requires r2.entry == r.entry
    ensures Download(env, r2, Download(env, r, files, held).files, held2).outcome == Skipped
  {
    BlockedIff(env, r, files, held);
    if UpToDate(env, r, files) || IsSet(r.event, 0) {
    } else {
      Streaming(env, r, files, held);
    }
  }
}
