/** The legacy word-processor (`.doc`) parser: one fixed command line per method,
    no fallback between tools, stdout returned as the tool wrote it. */
module DocParser {
  import opened Shell

  /** Python truthiness of the `method` argument: `None` and `''` are false. */
  predicate IsFalsy(requested: Option<string>)
  {
    requested == None || requested == Some("")
  }

  /** The methods `extract` recognises; a falsy method means `antiword`. */
  predicate IsKnownMethod(requested: Option<string>)
  {
    || IsFalsy(requested)
    || requested == Some("antiword")
    || requested == Some("catdoc")
    || requested == Some("libreoffice")
  }

  function ExtractAntiword(exec: Exec, filename: string): (r: Run<Bytes>)
    ensures r.trace == [["antiword", filename]]
    ensures r.result == Stdout(exec(["antiword", filename]))
  {
    RunStdout(exec, ["antiword", filename])
  }

  function ExtractCatdoc(exec: Exec, filename: string): (r: Run<Bytes>)
    ensures r.trace == [["catdoc", "-w", filename]]
    ensures r.result == Stdout(exec(["catdoc", "-w", filename]))
  {
    RunStdout(exec, ["catdoc", "-w", filename])
  }

  function ExtractLibreoffice(exec: Exec, filename: string): (r: Run<Bytes>)
    ensures r.trace == [["libreoffice", "--headless", "--cat", filename]]
    ensures r.result == Stdout(exec(["libreoffice", "--headless", "--cat", filename]))
  {
    RunStdout(exec, ["libreoffice", "--headless", "--cat", filename])
  }

  /** `Parser.extract`. */
  function Extract(exec: Exec, filename: string, requested: Option<string>): (r: Run<Bytes>)
    // At most one command runs; none exactly when the method is unknown, which fails.
    ensures |r.trace| <= 1
    ensures r.trace == [] <==> !IsKnownMethod(requested)
    ensures r.trace == [] ==> r.result == Err(UnknownMethod(requested))
    ensures r.result.Err? && r.result.error.UnknownMethod? <==> !IsKnownMethod(requested)
    // Whatever ran decides the result: its stdout unchanged, or its failure unchanged.
    ensures r.trace != [] ==> r.result == Stdout(exec(r.trace[0]))
    // The file is always the last argument of the command.
    ensures r.trace != [] ==> |r.trace[0]| >= 2 && r.trace[0][|r.trace[0]| - 1] == filename
  {
    if IsFalsy(requested) || requested == Some("antiword") then
      ExtractAntiword(exec, filename)
    else if requested == Some("catdoc") then
      ExtractCatdoc(exec, filename)
    else if requested == Some("libreoffice") then
      ExtractLibreoffice(exec, filename)
    else
      Run(Err(UnknownMethod(requested)), [])
  }

  /** The command each known method runs. */
  lemma ExtractCommandLines(exec: Exec, filename: string, requested: Option<string>)
    ensures IsFalsy(requested) || requested == Some("antiword") ==>
              Extract(exec, filename, requested).trace == [["antiword", filename]]
    ensures requested == Some("catdoc") ==>
              Extract(exec, filename, requested).trace == [["catdoc", "-w", filename]]
    ensures requested == Some("libreoffice") ==>
              Extract(exec, filename, requested).trace == [["libreoffice", "--headless", "--cat", filename]]
  {
  }
}
