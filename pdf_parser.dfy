/** The PDF parser: a dispatcher over the requested extraction method, the
    `pdftotext` direct extractor, the `pdfminer` fallback chain, and the two OCR
    strategies (one page after another, or a pool of workers sharing a job queue
    and a result dict). */
module PdfParser {
  import opened Shell
  import opened PageOrder

  /** What the host supplies besides the executor: the path `find_executable`
      reports for `pdf2txt.py`, the directory `mkdtemp` hands out, the file names
      `os.listdir` reports there once `pdftoppm` has run (in whatever order it
      reports them), and the OCR collaborator, from a page image path to its text. */
  datatype Host = Host(pdf2txtPath: string, tempDir: string, rendered: seq<string>, ocr: string -> Bytes)

  /** The methods `extract` recognises. `None` is not one of them: only `''` selects
      the default. */
  predicate IsKnownMethod(requested: Option<string>)
  {
    || requested == Some("")
    || requested == Some("pdftotext")
    || requested == Some("pdfminer")
    || requested == Some("tesseract")
    || requested == Some("tesseract_mp")
  }

  // ---------------------------------------------------------------------------
  // pdftotext

  /** The argument list of `extract_pdftotext`. */
  function PdftotextArgs(filename: string, kwargs: Kwargs): (args: Command)
    ensures |args| == 3 + (if "layout" in kwargs then 1 else 0) + (if "raw" in kwargs then 1 else 0)
    ensures args[0] == "pdftotext"
    ensures args[|args| - 2..] == [filename, "-"]
    ensures "-layout" in args[1..|args| - 2] <==> "layout" in kwargs
    ensures "-raw" in args[1..|args| - 2] <==> "raw" in kwargs
    ensures "layout" in kwargs ==> args[1] == "-layout"
  {
    var flags := (if "layout" in kwargs then ["-layout"] else []) + (if "raw" in kwargs then ["-raw"] else []);
    var args := ["pdftotext"] + flags + [filename, "-"];
    assert args[1..|args| - 2] == flags;
    args
  }

  /** Only the presence of `layout` and `raw` matters, never their values or any
      other option. */
  lemma PdftotextArgsIgnoreValues(filename: string, kwargs: Kwargs, other: Kwargs)
    requires ("layout" in kwargs <==> "layout" in other) && ("raw" in kwargs <==> "raw" in other)
    ensures PdftotextArgs(filename, kwargs) == PdftotextArgs(filename, other)
  {
  }

  /** `extract_pdftotext` builds its argument list by appending to it. */
  method BuildPdftotextArgs(filename: string, kwargs: Kwargs) returns (args: Command)
    ensures args == PdftotextArgs(filename, kwargs)
  {
    args := ["pdftotext"];
    if "layout" in kwargs {
      args := args + ["-layout"];
    }
    if "raw" in kwargs {
      args := args + ["-raw"];
    }
    args := args + [filename, "-"];
  }

  function ExtractPdftotext(exec: Exec, filename: string, kwargs: Kwargs): (r: Run<Bytes>)
    ensures r.trace == [PdftotextArgs(filename, kwargs)]
    ensures r.result == Stdout(exec(PdftotextArgs(filename, kwargs)))
  {
    RunStdout(exec, PdftotextArgs(filename, kwargs))
  }

  // ---------------------------------------------------------------------------
  // pdfminer

  /** The three invocations `extract_pdfminer` may make, in the order it makes them. */
  function PdfminerCommands(pdf2txtPath: string, filename: string): seq<Command>
  {
    [["pdf2txt.py", filename], ["python3", pdf2txtPath, filename], ["python2", pdf2txtPath, filename]]
  }

  /** `extract_pdfminer`: the second invocation happens only when the first raised
      an OSError, the third only when the second raised a ShellError; the first
      success gives the result and the last failure propagates. */
  function ExtractPdfminer(exec: Exec, pdf2txtPath: string, filename: string): (r: Run<Bytes>)
    ensures 1 <= |r.trace| <= 3
    ensures r.trace == PdfminerCommands(pdf2txtPath, filename)[..|r.trace|]
    ensures r.result == Stdout(exec(r.trace[|r.trace| - 1]))
    ensures |r.trace| >= 2 <==> exec(["pdf2txt.py", filename]).Err? && exec(["pdf2txt.py", filename]).error.OSError?
    ensures |r.trace| == 3 <==> |r.trace| >= 2 && exec(["python3", pdf2txtPath, filename]).Err?
                                               && exec(["python3", pdf2txtPath, filename]).error.ShellError?
  {
    var first := ["pdf2txt.py", filename];
    var out := exec(first);
    if out.Err? && out.error.OSError? then
      var second := ["python3", pdf2txtPath, filename];
      var out2 := exec(second);
      if out2.Err? && out2.error.ShellError? then
        var third := ["python2", pdf2txtPath, filename];
        Run(Stdout(exec(third)), [first, second, third])
      else
        Run(Stdout(out2), [first, second])
    else
      Run(Stdout(out), [first])
  }

  /** Which failures of one attempt let a fallback chain go on to the next attempt. */
  datatype Catch = CatchOSError | CatchShellError | CatchNothing

  predicate Catches(c: Catch, e: Error)
  {
    match c
    case CatchOSError => e.OSError?
    case CatchShellError => e.ShellError?
    case CatchNothing => false
  }

  datatype Attempt = Attempt(command: Command, recover: Catch)

  /** A generic fallback chain: run the attempts in order until one succeeds, one
      fails in a way its `recover` does not catch, or the last one fails. */
  function TryInOrder(exec: Exec, attempts: seq<Attempt>): (r: Run<Bytes>)
    requires |attempts| > 0
    ensures 1 <= |r.trace| <= |attempts|
    ensures forall i :: 0 <= i < |r.trace| ==> r.trace[i] == attempts[i].command
    ensures forall i :: 0 <= i < |r.trace| - 1 ==>
              exec(attempts[i].command).Err? && Catches(attempts[i].recover, exec(attempts[i].command).error)
    ensures r.result == Stdout(exec(r.trace[|r.trace| - 1]))
    ensures |r.trace| < |attempts| ==>
              r.result.Ok? || !Catches(attempts[|r.trace| - 1].recover, r.result.error)
    decreases |attempts|
  {
    var out := exec(attempts[0].command);
    if out.Err? && Catches(attempts[0].recover, out.error) && |attempts| > 1 then
      var rest := TryInOrder(exec, attempts[1..]);
      Run(rest.result, [attempts[0].command] + rest.trace)
    else
      Run(Stdout(out), [attempts[0].command])
  }

  /** The nested handlers of `extract_pdfminer` are exactly the fallback chain
      pdf2txt.py (OSError recovers), python3 (ShellError recovers), python2. */
  lemma PdfminerIsFallbackChain(exec: Exec, pdf2txtPath: string, filename: string)
    ensures ExtractPdfminer(exec, pdf2txtPath, filename) == TryInOrder(exec, [
              Attempt(["pdf2txt.py", filename], CatchOSError),
              Attempt(["python3", pdf2txtPath, filename], CatchShellError),
              Attempt(["python2", pdf2txtPath, filename], CatchNothing)])
  {
  }

  // ---------------------------------------------------------------------------
  // OCR

  /** `os.path.join(dir, name)` for a plain file name. */
  function PathJoin(dir: string, name: string): string
  {
    dir + "/" + name
  }

  /** `pdftoppm` renders every page into the temporary directory under the prefix `conv`. */
  function PdftoppmArgs(filename: string, tempDir: string): Command
  {
    ["pdftoppm", filename, PathJoin(tempDir, "conv")]
  }

  /** The OCR text of every rendered page, page i being the i-th name in sorted order. */
  function PageTexts(host: Host): (texts: seq<Bytes>)
    ensures |texts| == |host.rendered|
    ensures forall i :: 0 <= i < |texts| ==> texts[i] == host.ocr(PathJoin(host.tempDir, Sort(host.rendered)[i]))
  {
    var names := Sort(host.rendered);
    seq(|names|, i requires 0 <= i < |names| => host.ocr(PathJoin(host.tempDir, names[i])))
  }

  /** What either OCR strategy does: render once, then return the page texts joined
      in page order; a rendering failure propagates unchanged. */
  function ExtractOcr(exec: Exec, host: Host, filename: string): (r: Run<Bytes>)
    ensures r.trace == [PdftoppmArgs(filename, host.tempDir)]
    ensures r.result.Err? <==> exec(PdftoppmArgs(filename, host.tempDir)).Err?
    ensures r.result.Err? ==> r.result.error == exec(PdftoppmArgs(filename, host.tempDir)).error
    ensures r.result.Ok? ==> r.result.value == Concat(PageTexts(host))
    ensures r.result.Ok? && host.rendered == [] ==> r.result.value == []
  {
    var rendering := PdftoppmArgs(filename, host.tempDir);
    match exec(rendering)
    case Err(e) => Run(Err(e), [rendering])
    case Ok(_) => Run(Ok(Concat(PageTexts(host))), [rendering])
  }

  /** In the OCR output, page i's text follows exactly the texts of the pages whose
      file names sort before its own. */
  lemma OcrPageInPlace(exec: Exec, host: Host, filename: string, i: nat)
    requires exec(PdftoppmArgs(filename, host.tempDir)).Ok?
    requires i < |host.rendered|
    ensures var out := ExtractOcr(exec, host, filename).result.value;
            var before := |Concat(PageTexts(host)[..i])|;
            var text := host.ocr(PathJoin(host.tempDir, Sort(host.rendered)[i]));
            before + |text| <= |out| && out[before..before + |text|] == text
  {
    ConcatPlacesPart(PageTexts(host), i);
  }

  /** `extract_tesseract`: OCR the sorted pages one at a time, appending each text. */
  method ExtractTesseract(shell: ShellParser, fs: FileSystem, host: Host, filename: string) returns (r: Result<Bytes>)
    requires host.tempDir !in fs.dirs
    modifies shell, fs
    ensures fs.dirs == old(fs.dirs) && fs.created == old(fs.created) + [host.tempDir]
    ensures shell.trace == old(shell.trace) + ExtractOcr(shell.exec, host, filename).trace
    ensures r == ExtractOcr(shell.exec, host, filename).result
  {
    fs.Mkdtemp(host.tempDir);
    var base := PathJoin(host.tempDir, "conv");
    var contents: seq<Bytes> := [];
    var rendering := shell.Run(["pdftoppm", filename, base]);
    if rendering.Err? {
      fs.Rmtree(host.tempDir);
      return Err(rendering.error);
    }
    var pages := Sort(host.rendered);
    for i := 0 to |pages|
      invariant |contents| == i
      invariant forall k :: 0 <= k < i ==> contents[k] == host.ocr(PathJoin(host.tempDir, pages[k]))
    {
      var pagePath := PathJoin(host.tempDir, pages[i]);
      contents := contents + [host.ocr(pagePath)];
    }
    fs.Rmtree(host.tempDir);
    assert contents == PageTexts(host);
    r := Ok(Concat(contents));
  }

  /** `min(os.cpu_count() // 3 or 1, pages_count)`: how many workers are started. */
  function WorkerCount(cpuCount: nat, pageCount: nat): (tasks: nat)
    ensures tasks <= pageCount
    ensures tasks <= cpuCount / 3 || tasks == 1
    ensures tasks == 0 <==> pageCount == 0
    ensures tasks == pageCount || tasks == (if cpuCount / 3 == 0 then 1 else cpuCount / 3)
  {
    var cores := if cpuCount / 3 == 0 then 1 else cpuCount / 3;
    if cores < pageCount then cores else pageCount
  }

  /** A queued page: its 1-based id and the path of its image. */
  datatype Job = Job(id: nat, path: string)

  /** The job queue and the `pages` dict the workers share. `jobs` holds every job
      put on the queue, in put order; a worker that takes job k writes
      `pages[jobs[k].id]`, and the ghost `claimedBy` records which worker did. */
  class JobPool {
    const ocr: string -> Bytes
    var jobs: seq<Job>
    var pages: map<nat, Bytes>
    ghost var claimedBy: map<nat, nat>

    /** Ids number the jobs from 1 in put order, and every entry of `pages` is the
        OCR text of its job's page. */
    ghost predicate Valid()
      reads this
    {
      && (forall k :: 0 <= k < |jobs| ==> jobs[k].id == k + 1)
      && (forall id :: id in pages ==> 1 <= id <= |jobs| && pages[id] == ocr(jobs[id - 1].path))
      && claimedBy.Keys == pages.Keys
    }

    /** The OCR text of every queued page, in id order. */
    ghost function JobTexts(): (texts: seq<Bytes>)
      reads this`jobs
      ensures |texts| == |jobs|
    {
      var queued := jobs;
      seq(|queued|, k requires 0 <= k < |queued| => ocr(queued[k].path))
    }

    constructor (ocr: string -> Bytes)
      ensures Valid() && this.ocr == ocr && jobs == [] && pages == map[]
    {
      this.ocr := ocr;
      jobs := [];
      pages := map[];
      claimedBy := map[];
    }

    /** `q.put_nowait((page_id, page_path))`, ids handed out by `enumerate(..., start=1)`. */
    method PutNowait(job: Job)
      requires Valid() && job.id == |jobs| + 1
      modifies this
      ensures Valid() && jobs == old(jobs) + [job]
      ensures pages == old(pages) && claimedBy == old(claimedBy)
    {
      jobs := jobs + [job];
    }

    /** One turn of `Worker.run`: take job `k` off the queue, OCR its page and store
        the text under its id. The queue hands every job to one worker only, so no
        id is written twice. */
    method Work(worker: nat, k: nat)
      requires Valid() && k < |jobs| && jobs[k].id !in pages
      modifies this
      ensures Valid() && jobs == old(jobs)
      ensures pages == old(pages)[jobs[k].id := ocr(jobs[k].path)]
      ensures claimedBy == old(claimedBy)[jobs[k].id := worker]
    {
      var content := ocr(jobs[k].path);
      pages := pages[jobs[k].id := content];
      claimedBy := claimedBy[jobs[k].id := worker];
    }
  }

  /** Start `tasks` workers and block in `q.join()`. Each step lets some worker take
      some pending job; which worker and which job is the scheduler's choice, and the
      proof holds for every choice. At least one worker is needed when there is a job,
      or the join would never return. */
  method RunWorkers(pool: JobPool, tasks: nat)
    requires pool.Valid() && pool.pages == map[]
    requires |pool.jobs| > 0 ==> tasks > 0
    modifies pool
    ensures pool.Valid() && pool.jobs == old(pool.jobs)
    ensures forall id :: id in pool.pages <==> 1 <= id <= |pool.jobs|
    ensures forall id :: id in pool.claimedBy ==> pool.claimedBy[id] < tasks
  {
    var pending := set job | job in pool.jobs :: job.id;
    forall id | 1 <= id <= |pool.jobs|
      ensures id in pending
    {
      assert pool.jobs[id - 1] in pool.jobs;
    }
    while pending != {}
      invariant pool.Valid() && pool.jobs == old(pool.jobs)
      invariant forall id :: id in pending ==> 1 <= id <= |pool.jobs|
      invariant forall id :: 1 <= id <= |pool.jobs| ==> (id in pool.pages <==> id !in pending)
      invariant forall id :: id in pool.claimedBy ==> pool.claimedBy[id] < tasks
      decreases pending
    {
      var id :| id in pending;
      var worker :| 0 <= worker < tasks;
      pool.Work(worker, id - 1);
      pending := pending - {id};
    }
  }

  /** `for page_id, page_content in sorted(pages.items(), ...)`: walk the filled dict
      in ascending key order and join the texts. When the dict holds exactly the ids
      1..N, id k + 1 carrying `texts[k]`, the result is those texts joined in order. */
  method Reassemble(pages: map<nat, Bytes>, ghost texts: seq<Bytes>) returns (text: Bytes)
    requires forall id :: id in pages <==> 1 <= id <= |texts|
    requires forall k :: 0 <= k < |texts| ==> pages[k + 1] == texts[k]
    ensures text == Concat(texts)
  {
    var ids := SortedIds(pages.Keys);
    // With every id from 1 to N present, ascending key order is 1, 2, ..., N.
    assert ids == PageIds(|texts|) by {
      SortedIdsOfRange(pages.Keys, |texts|);
    }
    var contents: seq<Bytes> := [];
    for i := 0 to |ids|
      invariant contents == texts[..i]
    {
      assert ids[i] == i + 1 && texts[..i + 1] == texts[..i] + [texts[i]];
      contents := contents + [pages[ids[i]]];
    }
    assert texts[..|ids|] == texts;
    text := Concat(contents);
  }

  /** The loop of `extract_tesseract_mp` that queues `(page_id, page_path)` for the
      sorted page names, ids counted from 1. */
  method EnqueuePages(pool: JobPool, host: Host)
    requires pool.Valid() && pool.jobs == [] && pool.pages == map[] && pool.ocr == host.ocr
    modifies pool
    ensures pool.Valid() && pool.pages == map[] && pool.ocr == host.ocr
    ensures |pool.jobs| == |host.rendered|
    ensures forall k :: 0 <= k < |pool.jobs| ==>
              pool.jobs[k] == Job(k + 1, PathJoin(host.tempDir, Sort(host.rendered)[k]))
    ensures pool.JobTexts() == PageTexts(host)
  {
    var names := Sort(host.rendered);
    for i := 0 to |names|
      invariant pool.Valid() && pool.pages == map[] && |pool.jobs| == i
      invariant forall k :: 0 <= k < i ==> pool.jobs[k] == Job(k + 1, PathJoin(host.tempDir, names[k]))
    {
      pool.PutNowait(Job(i + 1, PathJoin(host.tempDir, names[i])));
    }
    assert pool.JobTexts() == PageTexts(host);
  }

  /** `extract_tesseract_mp`: queue the sorted pages as jobs numbered from 1, let
      `WorkerCount` workers drain the queue in any order, then join the texts in id
      order. The result is that of the sequential strategy, whatever the schedule. */
  method ExtractTesseractMp(shell: ShellParser, fs: FileSystem, host: Host, filename: string, cpuCount: nat)
    returns (r: Result<Bytes>)
    requires host.tempDir !in fs.dirs
    modifies shell, fs
    ensures fs.dirs == old(fs.dirs) && fs.created == old(fs.created) + [host.tempDir]
    ensures shell.trace == old(shell.trace) + ExtractOcr(shell.exec, host, filename).trace
    ensures r == ExtractOcr(shell.exec, host, filename).result
  {
    fs.Mkdtemp(host.tempDir);
    var base := PathJoin(host.tempDir, "conv");
    var rendering := shell.Run(["pdftoppm", filename, base]);
    if rendering.Err? {
      fs.Rmtree(host.tempDir);
      return Err(rendering.error);
    }
    var pool := new JobPool(host.ocr);
    EnqueuePages(pool, host);
    var tasks := WorkerCount(cpuCount, |pool.jobs|);
    RunWorkers(pool, tasks);
    assert forall k :: 0 <= k < |pool.jobs| ==> pool.pages[k + 1] == pool.JobTexts()[k];
    var text := Reassemble(pool.pages, pool.JobTexts());
    fs.Rmtree(host.tempDir);
    r := Ok(text);
  }

  // ---------------------------------------------------------------------------
  // The dispatcher

  /** `Parser.extract`. */
  function Extract(exec: Exec, host: Host, filename: string, requested: Option<string>, kwargs: Kwargs): (r: Run<Bytes>)
    // An unknown method fails before anything runs; a known one always runs something.
    ensures !IsKnownMethod(requested) ==> r == Run(Err(UnknownMethod(requested)), [])
    ensures r.result.Err? && r.result.error.UnknownMethod? <==> !IsKnownMethod(requested)
    ensures IsKnownMethod(requested) ==> r.trace != []
    // The default and `pdftotext` first run pdftotext, and a success is returned as is.
    ensures var args := PdftotextArgs(filename, kwargs);
            (requested == Some("") || requested == Some("pdftotext")) ==>
              r.trace[0] == args
              && (exec(args).Ok? ==> r == Run(Ok(exec(args).value.stdout), [args]))
    // Only the default falls back to pdfminer, and only when pdftotext is not installed.
    ensures var args := PdftotextArgs(filename, kwargs);
            requested == Some("") && exec(args).Err? && exec(args).error.IsNotInstalled() ==>
              var fallback := ExtractPdfminer(exec, host.pdf2txtPath, filename);
              r.result == fallback.result && r.trace == [args] + fallback.trace
    // Any other pdftotext failure is re-raised unchanged, and nothing else runs.
    ensures var args := PdftotextArgs(filename, kwargs);
            (requested == Some("pdftotext") || requested == Some("")) && exec(args).Err?
            && (requested == Some("pdftotext") || !exec(args).error.IsNotInstalled()) ==>
              r == Run(Err(exec(args).error), [args])
    // The other known methods go straight to their extractor.
    ensures requested == Some("pdfminer") ==> r == ExtractPdfminer(exec, host.pdf2txtPath, filename)
    ensures requested == Some("tesseract") || requested == Some("tesseract_mp") ==>
              r == ExtractOcr(exec, host, filename)
  {
    if requested == Some("") || requested == Some("pdftotext") then
      var direct := ExtractPdftotext(exec, filename, kwargs);
      if direct.result.Err? && requested == Some("") && direct.result.error.IsNotInstalled() then
        var fallback := ExtractPdfminer(exec, host.pdf2txtPath, filename);
        Run(fallback.result, direct.trace + fallback.trace)
      else
        direct
    else if requested == Some("pdfminer") then
      ExtractPdfminer(exec, host.pdf2txtPath, filename)
    else if requested == Some("tesseract") || requested == Some("tesseract_mp") then
      ExtractOcr(exec, host, filename)
    else
      Run(Err(UnknownMethod(requested)), [])
  }

  /** pdfminer is invoked only on the default method after a not-installed pdftotext,
      or when it is requested by name. */
  lemma PdfminerOnlyAsFallback(exec: Exec, host: Host, filename: string, requested: Option<string>, kwargs: Kwargs)
    ensures var r := Extract(exec, host, filename, requested, kwargs);
            var args := PdftotextArgs(filename, kwargs);
            ["pdf2txt.py", filename] in r.trace ==>
              requested == Some("pdfminer")
              || (requested == Some("") && exec(args).Err? && exec(args).error.IsNotInstalled())
  {
  }
}
