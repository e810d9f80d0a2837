/**
 * The extraction step of the sync script: the term's PDF is downloaded from
 * the institution's page unless it is already on disk, and the JSON
 * calendar is produced by the generative model unless it is already on disk.
 * The file system is a map from file names to contents; fetches, file reads
 * and writes, and the model query are recorded in an effect log.
 */
module Cache {
  import opened Common
  import opened TermKey
  import opened LinkPicker

  /** File contents: the bytes of a download, or the text the script writes. */
  datatype Blob = Binary(bytes: seq<bv8>) | Text(text: string)

  /** An observable action of the extraction step. */
  datatype Effect =
    | FetchPage(url: string)     // the institution's landing page
    | FetchPdf(link: string)     // the calendar PDF behind the chosen link
    | ReadFile(name: string)
    | WriteFile(name: string)
    | QueryModel                 // one call to the generative model

  const FatecUrl: string := "https://fatecitapira.cps.sp.gov.br/"
  const SchemaFile: string := "agent.json"

  /**
   * What the outside world answers. The landing page arrives already parsed
   * into its anchors (or as the fetch's failure); `fetchPdf` answers for a
   * link as found on the page; `schemaParses` says whether a schema file's
   * contents are JSON; `extract` is the model's pretty-printed reply, or its
   * failure, for a PDF and a schema.
   */
  datatype Services = Services(
    landingPage: Result<seq<Anchor>>,
    normalize: string -> string,
    fetchPdf: string -> Result<seq<bv8>>,
    schemaParses: Blob -> bool,
    hasModelKey: bool,
    extract: (Blob, Blob) -> Result<string>)

  /** The outcome of a step: its result, the files afterwards and the effects it had, in order. */
  datatype Run<T> = Run(result: Result<T>, files: map<string, Blob>, effects: seq<Effect>)

  predicate NoDownload(effects: seq<Effect>)
  {
    forall i :: 0 <= i < |effects| ==> !effects[i].FetchPage? && !effects[i].FetchPdf?
  }

  predicate NoExtraction(effects: seq<Effect>)
  {
    forall i :: 0 <= i < |effects| ==> effects[i] != ReadFile(SchemaFile) && !effects[i].QueryModel?
  }

  /** The only files written are among `names`. */
  predicate WritesOnly(effects: seq<Effect>, names: set<string>)
  {
    forall i :: 0 <= i < |effects| ==> effects[i].WriteFile? ==> effects[i].name in names
  }

  /** Every file outside `names` is as it was. */
  ghost predicate SameOutside(before: map<string, Blob>, after: map<string, Blob>, names: set<string>)
  {
    forall n :: n !in names ==> (n in after <==> n in before) && (n in after ==> after[n] == before[n])
  }

  /** `getCalendarLink`: the landing page is fetched and its first qualifying href chosen. */
  function LinkSearch(svc: Services): Result<Option<string>>
  {
    match svc.landingPage
    case Err(e) => Err(e)
    case Ok(anchors) => Ok(CalendarLink(anchors, svc.normalize))
  }

  /**
   * `downloadCalendar(FATEC_URL, output)`. With no calendar link on the page
   * it fails with NotFoundError and writes nothing; a download is written to
   * `output` and to no other file.
   */
  function Download(files: map<string, Blob>, svc: Services, output: string): (run: Run<string>)
    ensures |run.effects| >= 1 && run.effects[0] == FetchPage(FatecUrl)
    ensures run.result.Ok? ==> run.result.value == output && output in run.files
    ensures run.result.Ok? ==>
      exists link :: LinkSearch(svc) == Ok(Some(link)) && svc.fetchPdf(link).Ok?
                     && run.files[output] == Binary(svc.fetchPdf(link).value)
  {
    match LinkSearch(svc)
    case Err(e) => Run(Err(e), files, [FetchPage(FatecUrl)])
    case Ok(None) => Run(Err(NotFoundError), files, [FetchPage(FatecUrl)])
    case Ok(Some(link)) =>
      match svc.fetchPdf(link)
      case Err(e) => Run(Err(e), files, [FetchPage(FatecUrl), FetchPdf(link)])
      case Ok(bytes) =>
        Run(Ok(output), files[output := Binary(bytes)], [FetchPage(FatecUrl), FetchPdf(link), WriteFile(output)])
  }

  /** `createJsonSchema(agentFile)`: the schema file must exist and parse. */
  function SchemaLoad(files: map<string, Blob>, svc: Services, agentFile: string): (r: Result<Blob>)
    ensures r.Ok? <==> agentFile in files && svc.schemaParses(files[agentFile])
    ensures r.Ok? ==> r.value == files[agentFile]
    ensures agentFile !in files ==> r == Err(FileMissing(agentFile))
  {
    if agentFile !in files then Err(FileMissing(agentFile))
    else if !svc.schemaParses(files[agentFile]) then Err(ParseError)
    else Ok(files[agentFile])
  }

  /**
   * `queryGeminiApi(filename, schema)`: a missing key fails before the PDF is
   * read; otherwise the PDF is read and the model queried once.
   */
  function Query(files: map<string, Blob>, svc: Services, filename: string, schema: Blob): (run: Run<string>)
    ensures run.files == files && WritesOnly(run.effects, {})
    ensures !svc.hasModelKey ==> run == Run(Err(ExternalApiError), files, [])
    ensures run.result.Ok? ==> filename in files && run.result == svc.extract(files[filename], schema)
    ensures run.result.Ok? ==> run.effects == [ReadFile(filename), QueryModel]
    ensures (svc.hasModelKey && filename in files) ==> run.result == svc.extract(files[filename], schema)
  {
    if !svc.hasModelKey then Run(Err(ExternalApiError), files, [])
    else if filename !in files then Run(Err(FileMissing(filename)), files, [ReadFile(filename)])
    else Run(svc.extract(files[filename], schema), files, [ReadFile(filename), QueryModel])
  }

  /** The part of `extractAcademicCalendar` after the PDF is on disk and the JSON file is not. */
  function Generate(files: map<string, Blob>, svc: Services, t: Term): (run: Run<string>)
    ensures run.result.Ok? ==> run.result.value == JsonName(t) && JsonName(t) in run.files
    ensures |run.effects| >= 1 && run.effects[0] == ReadFile(SchemaFile)
    ensures run.result.Ok? ==>
      && PdfName(t) in files && SchemaFile in files
      && svc.extract(files[PdfName(t)], files[SchemaFile]).Ok?
      && run.files[JsonName(t)] == Text(svc.extract(files[PdfName(t)], files[SchemaFile]).value)
    ensures (&& SchemaFile in files && svc.schemaParses(files[SchemaFile]) && svc.hasModelKey
             && PdfName(t) in files && svc.extract(files[PdfName(t)], files[SchemaFile]).Ok?)
      ==> run.result == Ok(JsonName(t))
  {
    var schemaLog := [ReadFile(SchemaFile)];
    match SchemaLoad(files, svc, SchemaFile)
    case Err(e) => Run(Err(e), files, schemaLog)
    case Ok(schema) =>
      var q := Query(files, svc, PdfName(t), schema);
      match q.result
      case Err(e) => Run(Err(e), files, schemaLog + q.effects)
      case Ok(reply) =>
        Run(Ok(JsonName(t)), files[Identifier(t) + ".json" := Text(reply)], schemaLog + q.effects + [WriteFile(Identifier(t) + ".json")])
  }

  /**
   * A download reads no schema, queries no model, and writes `output` and no
   * other file; with no calendar link on the page it fails with
   * NotFoundError after fetching the page only, and writes nothing.
   */
  lemma DownloadWritesOnlyOutput(files: map<string, Blob>, svc: Services, output: string)
    ensures var run := Download(files, svc, output);
      && NoExtraction(run.effects) && WritesOnly(run.effects, {output})
      && (run.result.Ok? ==> run.files == files[output := run.files[output]])
      && (run.result.Err? ==> run.files == files)
      && (LinkSearch(svc) == Ok(None) ==> run == Run(Err(NotFoundError), files, [FetchPage(FatecUrl)]))
  {
  }

  /** A calendar link on the page and a successful fetch write the fetched PDF to `output`. */
  lemma DownloadSucceeds(files: map<string, Blob>, svc: Services, output: string, link: string)
    requires LinkSearch(svc) == Ok(Some(link)) && svc.fetchPdf(link).Ok?
    ensures Download(files, svc, output).result == Ok(output)
    ensures Download(files, svc, output).files == files[output := Binary(svc.fetchPdf(link).value)]
  {
  }

  /** Generating the JSON calendar downloads nothing and writes only the JSON file. */
  lemma GenerateWritesOnlyJson(files: map<string, Blob>, svc: Services, t: Term)
    ensures var run := Generate(files, svc, t);
      && NoDownload(run.effects)
      && WritesOnly(run.effects, {JsonName(t)}) && SameOutside(files, run.files, {JsonName(t)})
  {
  }

  /** The PDF half: nothing to do when the PDF is on disk, a download otherwise. */
  function PdfStep(files: map<string, Blob>, svc: Services, t: Term): Run<string>
  {
    if PdfName(t) in files then Run(Ok(PdfName(t)), files, []) else Download(files, svc, PdfName(t))
  }

  /** `extractAcademicCalendar()` for the term `t`: the name of the JSON calendar on success. */
  function Extraction(files: map<string, Blob>, svc: Services, t: Term): (run: Run<string>)
  {
    var json := JsonName(t);
    var d := PdfStep(files, svc, t);
    if d.result.Err? then Run(Err(d.result.error), d.files, d.effects)
    else if json in d.files then Run(Ok(json), d.files, d.effects)
    else
      var g := Generate(d.files, svc, t);
      Run(g.result, g.files, d.effects + g.effects)
  }

  /**
   * The cache short-circuit. The PDF is downloaded exactly when it is absent;
   * an existing JSON file is returned as it is, with no schema read and no
   * model query; a success names the JSON file and leaves both cache files on
   * disk; only the two cache files may be written or change.
   */
  lemma ExtractionCaches(files: map<string, Blob>, svc: Services, t: Term)
    ensures var run := Extraction(files, svc, t);
      && (PdfName(t) in files ==> NoDownload(run.effects) && PdfName(t) in run.files
                                  && run.files[PdfName(t)] == files[PdfName(t)])
      && (PdfName(t) !in files ==> |run.effects| >= 1 && run.effects[0] == FetchPage(FatecUrl))
      && (JsonName(t) in files ==> NoExtraction(run.effects) && JsonName(t) in run.files
                                   && run.files[JsonName(t)] == files[JsonName(t)])
      && (PdfName(t) in files && JsonName(t) in files ==> run == Run(Ok(JsonName(t)), files, []))
      && (JsonName(t) in files && PdfStep(files, svc, t).result.Ok? ==> run.result == Ok(JsonName(t)))
      && (JsonName(t) !in files && PdfStep(files, svc, t).result.Ok? ==>
            && ReadFile(SchemaFile) in run.effects
            && (run.result.Ok? ==>
                  && PdfName(t) in run.files && SchemaFile in files
                  && svc.extract(run.files[PdfName(t)], files[SchemaFile]).Ok?
                  && run.files[JsonName(t)] == Text(svc.extract(run.files[PdfName(t)], files[SchemaFile]).value)))
      && (run.result.Ok? ==> run.result.value == JsonName(t) && PdfName(t) in run.files && JsonName(t) in run.files)
      && WritesOnly(run.effects, {PdfName(t), JsonName(t)})
      && SameOutside(files, run.files, {PdfName(t), JsonName(t)})
  {
    CacheNamesShareIdentifier(t, t);
    var pdf := PdfName(t);
    if pdf !in files {
      DownloadWritesOnlyOutput(files, svc, pdf);
    }
    var d := PdfStep(files, svc, t);
    if d.result.Ok? && JsonName(t) !in d.files {
      GenerateWritesOnlyJson(d.files, svc, t);
      var g := Generate(d.files, svc, t);
      assert (d.effects + g.effects)[|d.effects|] == ReadFile(SchemaFile);
    }
  }

  /** With both cache files on disk, the outcome does not depend on the network, the schema or the model. */
  lemma CachedPairNeedsNothing(files: map<string, Blob>, svc1: Services, svc2: Services, t: Term)
    requires PdfName(t) in files && JsonName(t) in files
    ensures Extraction(files, svc1, t) == Extraction(files, svc2, t)
  {
    ExtractionCaches(files, svc1, t);
    ExtractionCaches(files, svc2, t);
  }

  /**
   * The PDF step comes first: with the PDF absent, a failed download ends
   * the run even if the JSON file is already on disk.
   */
  lemma DownloadFailureBeatsCachedJson(files: map<string, Blob>, svc: Services, t: Term)
    requires PdfName(t) !in files && JsonName(t) in files
    requires LinkSearch(svc) == Ok(None)
    ensures Extraction(files, svc, t) == Run(Err(NotFoundError), files, [FetchPage(FatecUrl)])
  {
    CacheNamesShareIdentifier(t, t);
  }

  /** A second extraction after a successful one finds both files and does nothing. */
  lemma {:induction false} ExtractionIsCached(files: map<string, Blob>, svc1: Services, svc2: Services, t: Term)
    requires Extraction(files, svc1, t).result.Ok?
    ensures var after := Extraction(files, svc1, t).files;
      Extraction(after, svc2, t) == Run(Ok(JsonName(t)), after, [])
  {
    var after := Extraction(files, svc1, t).files;
    ExtractionCaches(files, svc1, t);
    ExtractionCaches(after, svc2, t);
  }

  /** The machine the script runs on: its files, and the log of effects so far. */
  class Host {
    var files: map<string, Blob>
    var effects: seq<Effect>

    constructor (initial: map<string, Blob>)
      ensures files == initial && effects == []
    {
      files, effects := initial, [];
    }

    /** `Bun.file(name).exists()`. */
    predicate Exists(name: string)
      reads this
    {
      name in files
    }

    /** Reading a file: its contents, or FileMissing when there is no such file. */
    method Read(name: string) returns (r: Result<Blob>)
      modifies this`effects
      ensures r == (if name in files then Ok(files[name]) else Err(FileMissing(name)))
      ensures effects == old(effects) + [ReadFile(name)]
    {
      effects := effects + [ReadFile(name)];
      if name in files {
        r := Ok(files[name]);
      } else {
        r := Err(FileMissing(name));
      }
    }

    /** `Bun.write(name, contents)`: creates or replaces the file. */
    method Write(name: string, contents: Blob)
      modifies this
      ensures files == old(files)[name := contents]
      ensures effects == old(effects) + [WriteFile(name)]
    {
      files := files[name := contents];
      effects := effects + [WriteFile(name)];
    }

    /** Records a network or model call. */
    method Log(e: Effect)
      modifies this`effects
      ensures effects == old(effects) + [e]
    {
      effects := effects + [e];
    }
  }

  method GetCalendarLink(host: Host, svc: Services) returns (r: Result<Option<string>>)
    modifies host`effects
    ensures r == LinkSearch(svc)
    ensures host.effects == old(host.effects) + [FetchPage(FatecUrl)]
  {
    host.Log(FetchPage(FatecUrl));
    match svc.landingPage
    case Err(e) =>
      r := Err(e);
    case Ok(anchors) =>
      var link := FindCalendarLink(anchors, svc.normalize);
      r := Ok(link);
  }

  method DownloadCalendar(host: Host, svc: Services, outputFile: string) returns (r: Result<string>)
    modifies host
    ensures var run := Download(old(host.files), svc, outputFile);
      r == run.result && host.files == run.files && host.effects == old(host.effects) + run.effects
  {
    var calendarLink := GetCalendarLink(host, svc);
    if calendarLink.Err? {
      return Err(calendarLink.error);
    }
    if calendarLink.value.None? {
      return Err(NotFoundError);
    }
    var link := calendarLink.value.value;
    host.Log(FetchPdf(link));
    var pdf := svc.fetchPdf(link);
    if pdf.Err? {
      return Err(pdf.error);
    }
    host.Write(outputFile, Binary(pdf.value));
    return Ok(outputFile);
  }

  method CreateJsonSchema(host: Host, svc: Services, agentFile: string) returns (r: Result<Blob>)
    modifies host`effects
    ensures r == SchemaLoad(host.files, svc, agentFile)
    ensures host.effects == old(host.effects) + [ReadFile(agentFile)]
  {
    var text := host.Read(agentFile);
    if text.Err? {
      return Err(text.error);
    }
    if !svc.schemaParses(text.value) {
      return Err(ParseError);
    }
    return Ok(text.value);
  }

  method QueryGeminiApi(host: Host, svc: Services, filename: string, schema: Blob) returns (r: Result<string>)
    modifies host`effects
    ensures var run := Query(host.files, svc, filename, schema);
      r == run.result && host.effects == old(host.effects) + run.effects
  {
    if !svc.hasModelKey {
      return Err(ExternalApiError);
    }
    var pdf := host.Read(filename);
    if pdf.Err? {
      return Err(pdf.error);
    }
    host.Log(QueryModel);
    r := svc.extract(pdf.value, schema);
  }

  method SaveCalendarJson(host: Host, identifier: string, jsonContent: string)
    modifies host
    ensures host.files == old(host.files)[identifier + ".json" := Text(jsonContent)]
    ensures host.effects == old(host.effects) + [WriteFile(identifier + ".json")]
  {
    var filename := identifier + ".json";
    host.Write(filename, Text(jsonContent));
  }

  /** The schema load, the model query and the save, once the PDF is on disk and the JSON file is not. */
  method GenerateCalendarJson(host: Host, svc: Services, t: Term) returns (r: Result<string>)
    modifies host
    ensures var run := Generate(old(host.files), svc, t);
      r == run.result && host.files == run.files && host.effects == old(host.effects) + run.effects
  {
    var calendarIdentifier := Identifier(t);
    var jsonSchema := CreateJsonSchema(host, svc, SchemaFile);
    if jsonSchema.Err? {
      return Err(jsonSchema.error);
    }
    var jsonResponse := QueryGeminiApi(host, svc, calendarIdentifier + ".pdf", jsonSchema.value);
    if jsonResponse.Err? {
      return Err(jsonResponse.error);
    }
    SaveCalendarJson(host, calendarIdentifier, jsonResponse.value);
    return Ok(calendarIdentifier + ".json");
  }

  /** The extraction step, run against the host for the term `t`. */
  method ExtractAcademicCalendar(host: Host, svc: Services, t: Term) returns (r: Result<string>)
    modifies host
    ensures var run := Extraction(old(host.files), svc, t);
      r == run.result && host.files == run.files && host.effects == old(host.effects) + run.effects
  {
    ghost var files0, log0 := host.files, host.effects;
    ghost var run := Extraction(files0, svc, t);
    var calendarIdentifier := Identifier(t);
    var calendarFilename := calendarIdentifier + ".pdf";
    ghost var d := PdfStep(files0, svc, t);
    if !host.Exists(calendarFilename) {
      var downloaded := DownloadCalendar(host, svc, calendarFilename);
      if downloaded.Err? {
        return Err(downloaded.error);
      }
    }
    assert d.result.Ok? && host.files == d.files && host.effects == log0 + d.effects;
    var calendarFilenameJson := calendarIdentifier + ".json";
    if host.Exists(calendarFilenameJson) {
      return Ok(calendarFilenameJson);
    }
    ghost var g := Generate(d.files, svc, t);
    assert run == Run(g.result, g.files, d.effects + g.effects);
    r := GenerateCalendarJson(host, svc, t);
    assert log0 + d.effects + g.effects == log0 + (d.effects + g.effects);
  }
}
