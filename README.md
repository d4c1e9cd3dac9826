# textract PDF and DOC parsers, modelled in Dafny

textract pulls plain text out of binary documents by running command-line tools.
This project models the two parsers at its core:

- the **PDF parser** (`textract/parsers/pdf_parser.py`). `Parser.extract` picks an
  extraction method. The default runs `pdftotext` and falls back to `pdfminer` only
  when `pdftotext` is not installed. `pdfminer` is itself a chain of three invocations.
  The two OCR strategies render every page with `pdftoppm` into a temporary
  directory and OCR the page images. `tesseract` does it one page after another.
  `tesseract_mp` queues the pages as jobs for a pool of worker threads that fill a
  shared dict, then joins the texts in page-id order.
- the **DOC parser** (`textract/parsers/doc_parser.py`). `Parser.extract` maps a
  method to exactly one fixed command line.

The external world is injected:

- The shell executor (`ShellParser.run`) is a function `Exec` from an argument list to
  `Ok(Output(stdout, stderr))` or to a failure. The failure is a `ShellError` carrying
  its `is_not_installed()` classification as an opaque flag, or an `OSError`. The type
  `Exec` excludes `UnknownMethod`, the third kind of `Error`, which only the
  dispatchers raise.
- Every parser operation returns a `Run`: its result together with the **trace** of
  commands it handed to the executor, in order. "Nothing ran" and "pdfminer was never
  invoked" are statements about that trace.
- The OCR collaborator (`image.Parser.extract`) is a function from a page image path to
  bytes.
- The temporary directory lives in a `FileSystem` object whose `dirs` set `mkdtemp` and
  `rmtree` update. The name `mkdtemp` picks and the names `os.listdir` reports after
  rendering are inputs (`Host.tempDir`, `Host.rendered`).
- Python's `sorted()` on `str` is modelled as an insertion sort under code-point
  lexicographic order (`PageOrder.Below`). `AscendingUnique` proves that any correct
  sort gives the same sequence.
- The worker threads of `tesseract_mp` are modelled by a loop in which the scheduler
  picks, at each step, any pending job and any of the started workers (`:|`). Every
  property of that method is proved for every such choice.

Modules: `Shell` (executor, errors, `ShellParser`, `FileSystem`), `PageOrder` (string
order, `sorted()`, `b''.join`, page ids), `PdfParser`, `DocParser`.

Behaviour of the code worth noting:

- The pdfminer chain has three steps. The second runs only after an `OSError`, the third
  only after a `ShellError`.
- An OCR failure inside a `tesseract_mp` worker is not reported to the caller; the
  code would block in `q.join()` instead (see Left out).
- An empty page listing yields the empty byte string.
- `method=None` selects antiword in the DOC parser, because `not method` holds. In
  the PDF parser it raises `UnknownMethod(None)`, because only `''` selects the
  default there.

## Model

| member | source | states |
|---|---|---|
| `PdfParser.Extract` | textract/parsers/pdf_parser.py:25-45 | An unknown method (including `None`) fails with `UnknownMethod` and runs nothing, and no other call fails with `UnknownMethod`; every known method runs something. The default and `pdftotext` run pdftotext first and return its stdout unchanged on success. Only the default falls back, and only on a not-installed ShellError; the result is then pdfminer's and the trace is pdftotext followed by pdfminer's commands. Any other pdftotext failure is re-raised unchanged with nothing else run. `pdfminer`, `tesseract` and `tesseract_mp` go straight to their extractor |
| `PdfParser.IsKnownMethod` | textract/parsers/pdf_parser.py:26-43 | The methods the if/elif chain accepts: `''` (the default), `pdftotext`, `pdfminer`, `tesseract` and `tesseract_mp`. `None` is not among them, because only `''` selects the default |
| `PdfParser.PdfminerOnlyAsFallback` | textract/parsers/pdf_parser.py:26-39 | `pdf2txt.py` appears in the trace only when pdfminer was requested, or when the default method met a not-installed pdftotext |
| `PdfParser.PdftotextArgs` | textract/parsers/pdf_parser.py:50-55 | The argument list starts with `pdftotext` and ends with `filename, -`. Between them, `-layout` appears iff the key `layout` is present and `-raw` iff `raw` is present. `-layout` comes first when both are present. Its length is 3 plus one per flag |
| `PdfParser.PdftotextArgsIgnoreValues` | textract/parsers/pdf_parser.py:51-54 | Two option maps that agree on whether `layout` and `raw` are present give the same argument list, whatever the values or other keys |
| `PdfParser.BuildPdftotextArgs` | textract/parsers/pdf_parser.py:50-55 | Building the list by appending yields exactly `PdftotextArgs` |
| `PdfParser.ExtractPdftotext` | textract/parsers/pdf_parser.py:47-58 | Runs exactly the pdftotext argument list once; returns its stdout, or its failure unchanged |
| `PdfParser.ExtractPdfminer` | textract/parsers/pdf_parser.py:60-73 | Runs a non-empty prefix of `pdf2txt.py f`, `python3 path f`, `python2 path f`. The second runs iff the first raised an OSError; the third runs iff the second ran and raised a ShellError. The result is the stdout of the last command run, or its failure unchanged |
| `PdfParser.TryInOrder` | textract/parsers/pdf_parser.py:66-72 | A generic fallback chain. The trace is a non-empty prefix of the attempts. Every attempt but the last one run failed with an error its handler catches. The result is the last run command's stdout or failure. A chain that stops early stopped on a success or on an error its handler does not catch |
| `PdfParser.PdfminerIsFallbackChain` | textract/parsers/pdf_parser.py:66-72 | The nested handlers of `extract_pdfminer` equal the chain pdf2txt.py (OSError recovers), python3 (ShellError recovers), python2 (nothing recovers), in result and in trace |
| `PdfParser.PathJoin` | textract/parsers/pdf_parser.py:78 | `os.path.join(dir, name)` for a plain file name: the directory, a `/`, then the name. Also used at lines 84, 116 and 122 |
| `PdfParser.PdftoppmArgs` | textract/parsers/pdf_parser.py:81 | The rendering command `pdftoppm filename <tmp>/conv`, with the prefix `base` built at line 78. The parallel strategy runs the same command at line 119, with `base` from line 116 |
| `PdfParser.PageTexts` | textract/parsers/pdf_parser.py:83-86 | One OCR text per rendered file; text i is the OCR of the i-th file name in sorted order, joined to the temporary directory |
| `PdfParser.ExtractOcr` | textract/parsers/pdf_parser.py:77-89 | Either OCR strategy hands `pdftoppm filename <tmp>/conv` to the executor and nothing else. A rendering failure is returned unchanged; otherwise the result is the page texts joined in page order, and empty when no page was rendered |
| `PdfParser.OcrPageInPlace` | textract/parsers/pdf_parser.py:83-87 | In the OCR output, page i's text stands immediately after the texts of the pages whose names sort before it |
| `PdfParser.ExtractTesseract` | textract/parsers/pdf_parser.py:75-89 | The sequential strategy returns exactly `ExtractOcr`'s result and runs exactly its trace. It creates the temporary directory and removes it again on the success path and on the rendering-failure path |
| `PdfParser.WorkerCount` | textract/parsers/pdf_parser.py:125-128 | The number of started workers never exceeds the number of pages nor `max(cpu // 3, 1)`, and equals one of them. It is 0 exactly when there are no pages, so at least one worker exists whenever there is a job |
| `PdfParser.JobPool.constructor` | textract/parsers/pdf_parser.py:113-114 | A new pool has an empty queue (`q = queue.Queue()`) and an empty result dict (`pages = {}`), satisfies `Valid()` and keeps the OCR collaborator it was given |
| `PdfParser.JobPool.Valid` | textract/parsers/pdf_parser.py:113-123 | The pool invariant. Queued jobs carry ids 1, 2, ... in put order. Every key written into `pages` is the id of a queued job and holds the OCR of that job's page. Exactly the written keys have a recorded worker |
| `PdfParser.JobPool.PutNowait` | textract/parsers/pdf_parser.py:121-123 | Queuing appends the job and leaves the result dict untouched; ids keep numbering jobs from 1 in put order |
| `PdfParser.JobPool.Work` | textract/parsers/pdf_parser.py:103-109 | A worker that takes job k stores the OCR of its page under its id. It writes only a key not yet written and records which worker did it |
| `PdfParser.EnqueuePages` | textract/parsers/pdf_parser.py:121-123 | After the enqueue loop there is one job per rendered file, and job k is `(k + 1, <tmp>/<k-th name in sorted order>)`: ids 1..N go to the files in sorted-name order. Hence the queued jobs' OCR texts in id order are exactly `PageTexts` |
| `PdfParser.RunWorkers` | textract/parsers/pdf_parser.py:100-111 | Whatever job and worker the scheduler picks at each step, every id 1..N ends up written exactly once, with its own page's OCR, and every job was taken by one of the `tasks` workers |
| `PdfParser.Reassemble` | textract/parsers/pdf_parser.py:134-138 | For a dict whose keys are exactly 1..N, id k + 1 holding text k, walking the items in the order of the sorted keys and joining yields texts 0..N-1 in that order |
| `PdfParser.ExtractTesseractMp` | textract/parsers/pdf_parser.py:91-140 | For every schedule, the parallel strategy returns exactly `ExtractOcr`'s result, which is the sequential strategy's, and runs exactly its trace. It removes the temporary directory it created on the success and rendering-failure paths |
| `PageOrder.Sort` | textract/parsers/pdf_parser.py:83 | The model of `sorted()` returns a permutation of the listed names |
| `PageOrder.Below` | textract/parsers/pdf_parser.py:83 | Python's `<` on `str`, which `sorted()` uses here and at line 121: code-point lexicographic order, where the first differing code point decides and a proper prefix comes first |
| `PageOrder.SortAscending` | textract/parsers/pdf_parser.py:121 | `sorted()` as modelled is ascending under Python's string order and a permutation of its input |
| `PageOrder.AscendingUnique` | textract/parsers/pdf_parser.py:83 | Two ascending permutations of the same names are equal, so page order does not depend on how the sort is done |
| `PageOrder.BelowTotal` | textract/parsers/pdf_parser.py:83 | Python's string order is total: two different names are ordered one way or the other |
| `PageOrder.BelowTransitive` | textract/parsers/pdf_parser.py:121 | Python's string order is transitive |
| `PageOrder.SortedIds` | textract/parsers/pdf_parser.py:135 | `sorted()` of the dict's keys lists every key exactly once, strictly ascending |
| `PageOrder.AscendingIdsAreRange` | textract/parsers/pdf_parser.py:135 | A strictly ascending walk of exactly the keys 1..N is 1, 2, ..., N, which is what `sorted(pages.items())` yields once every job is done |
| `PageOrder.ConcatPlacesPart` | textract/parsers/pdf_parser.py:138 | `b''.join` places part k right after the join of the parts before it |
| `PageOrder.Concat` | textract/parsers/pdf_parser.py:87 | `six.b('').join(contents)`, also at line 138: the parts glued end to end in order, with no separator. The join of no parts is empty |
| `Shell.Stdout` | textract/parsers/pdf_parser.py:57-58 | Keeps stdout of a success and drops stderr; a failure passes through unchanged |
| `Shell.Error.IsNotInstalled` | textract/parsers/pdf_parser.py:33 | `ex.is_not_installed()`: it holds only of a `ShellError`, and then only when the executor classified the failure as a missing program |
| `Shell.ShellParser.Run` | textract/parsers/pdf_parser.py:57 | Running a command returns the executor's answer and appends the command to the trace |
| `Shell.FileSystem.Mkdtemp` | textract/parsers/pdf_parser.py:77 | Creates the fresh temporary directory and logs it |
| `Shell.FileSystem.Rmtree` | textract/parsers/pdf_parser.py:89 | Removes the directory |
| `DocParser.Extract` | textract/parsers/doc_parser.py:10-21 | At most one command runs, so there is no fallback between tools. None runs exactly when the method is unknown, and then the call fails with `UnknownMethod`; the call fails with `UnknownMethod` only then. Otherwise the result is that command's stdout unchanged, stderr dropped, or its failure unchanged. The file name is always the command's last argument |
| `DocParser.IsFalsy` | textract/parsers/doc_parser.py:11 | `not method`: both `None` and `''` count as no method |
| `DocParser.IsKnownMethod` | textract/parsers/doc_parser.py:11-18 | The methods the if/elif chain accepts: a falsy method, `antiword`, `catdoc` and `libreoffice` |
| `DocParser.ExtractCommandLines` | textract/parsers/doc_parser.py:10-33 | A falsy method or `antiword` runs `antiword f`; `catdoc` runs `catdoc -w f`; `libreoffice` runs `libreoffice --headless --cat f` |
| `DocParser.ExtractAntiword` | textract/parsers/doc_parser.py:23-25 | Runs `antiword f` once and returns its stdout or failure |
| `DocParser.ExtractCatdoc` | textract/parsers/doc_parser.py:27-29 | Runs `catdoc -w f` once and returns its stdout or failure |
| `DocParser.ExtractLibreoffice` | textract/parsers/doc_parser.py:31-33 | Runs `libreoffice --headless --cat f` once and returns its stdout or failure |

## Left out

- `ShellParser.run`, `ShellError` and `UnknownMethod` are defined in `textract/parsers/utils.py` and `textract/exceptions.py`. Those files are not part of this model. `run` is the injected `Exec`, and `is_not_installed()` is an opaque flag on the failure.
- `ShellError` and `OSError` are modelled as disjoint kinds of failure. Whether `ShellError` derives from `OSError` is decided in `textract/exceptions.py`, which is not part of this model.
- `find_executable('pdf2txt.py')` is an input (`Host.pdf2txtPath`). The case where it returns `None` is not modelled.
- The files `pdftoppm` leaves behind are an input (`Host.rendered`); the model does not derive them from the PDF. The name `mkdtemp` picks is an input (`Host.tempDir`) and must not exist yet.
- An OCR failure is not modelled: the OCR collaborator is a total function. In the sequential strategy such a failure would propagate after the directory is removed. In the parallel strategy the worker thread would die before `task_done()`, and `q.join()` would block rather than fail.
- Real threads, `queue.Queue` locking, the 3-second `get` timeout and the `task_done`/`join` handshake are not modelled. The pool is one loop in which the scheduler chooses the next job and worker freely. The FIFO order in which jobs leave the queue is subsumed by that free choice, because completion order is what decides the writes.
- `os.cpu_count()` is a parameter; it returning `None` is not modelled.
- The OCR collaborator's own invocations (`TesseractParser().extract`, `textract/parsers/pdf_parser.py` lines 85 and 108) are not part of the trace. The trace holds only the commands the parser hands to `self.run`.
- The options `kwargs` forwarded to the OCR collaborator are folded into the OCR function of one call.
- Removal of the temporary directory on an OCR failure path is not modelled, because OCR failures are not modelled.
- Determinism of repeated calls holds by construction: every operation is a function of its inputs and the injected executor.
