/** The request handlers of the document chat service (upload, query, list,
    clear) as functions from the service state before a request to the state
    after it and the response. The class in module Server runs the same steps
    by updating fields in place and is proved equal to these functions. */
module DocChat {
  import opened Wrappers
  import opened PyStr

  /** A LangChain document: a loaded page, a chunk produced by the splitter
      and an entry of the vector store all have this shape. */
  datatype Passage = Passage(content: string, metadata: map<string, string>)

  /** A registry entry (the `doc_info` dictionary). */
  datatype DocInfo = DocInfo(id: string, filename: string, fileType: string, chunks: nat, status: string)

  /** The body of a successful upload response. */
  datatype UploadReply = UploadReply(filename: string, docId: string, chunks: nat, status: string)

  /** The body of a successful query response; a missing `source` is `None`. */
  datatype Answer = Answer(answer: string, sources: seq<Option<string>>)

  /** An `HTTPException` raised by a handler, or an exception that escapes a
      handler and becomes the framework's generic server error. */
  datatype Error = HttpException(status: nat, detail: string) | Uncaught(reason: string)

  /** Which loader reads the saved file. */
  datatype FileType = Pdf | Docx

  /** The configuration the handler gives the text splitter. */
  datatype SplitterConfig = SplitterConfig(chunkSize: nat, chunkOverlap: nat, separators: seq<string>)

  /** The outcome of saving the uploaded bytes to disk. `open(path, "wb")`
      creates the file before the read and the write, so a fault in either of
      those leaves an empty or partial file behind (`created`); a fault in
      `open` itself leaves none. */
  datatype Outcome = Done | Fault(created: bool, reason: string)

  /** The outcome of `add_documents`: the store may have committed a prefix of
      the chunks before failing. */
  datatype AddOutcome = Added | AddFailed(committed: nat, reason: string)

  /** The stages of clearing, one of which may raise. */
  datatype ClearStage = DeleteCollectionStage | ReopenStage | RemoveUploadsStage | MakeUploadsStage
  datatype ClearFault = NoFault | FailsAt(stage: ClearStage, reason: string)

  /** A call the handlers make into a collaborator, in the order they make them. */
  datatype Call =
    | WriteFile(path: string)
    | LoadFile(fileType: FileType, path: string)
    | SplitPages(config: SplitterConfig, pages: nat)
    | AddDocuments(chunks: nat)
    | SimilaritySearch(query: string, k: nat)
    | InvokeLlm(prompt: string)
    | DeleteCollection
    | OpenCollection(name: string)
    | RemoveTree(dir: string)
    | MakeDir(dir: string)

  /** The collaborators an upload uses, as they behave during that request. */
  datatype Ingest = Ingest(
    save: string -> Outcome,
    load: (FileType, string) -> Result<seq<Passage>, string>,
    split: seq<Passage> -> Result<seq<Passage>, string>,
    add: seq<Passage> -> AddOutcome)

  /** The collaborators a query uses: the similarity search over the stored
      chunks, and the language model. */
  datatype Retrieval = Retrieval(
    search: (seq<Passage>, string, nat) -> Result<seq<Passage>, string>,
    invoke: string -> Result<string, string>)

  /** The process-wide state: the registry (a dictionary, so `order` keeps its
      keys in insertion order), the vector store's chunks, the files in the
      upload directory, and the collaborator calls made so far. */
  datatype State = State(
    registry: map<string, DocInfo>,
    order: seq<string>,
    store: seq<Passage>,
    uploads: set<string>,
    calls: seq<Call>)

  const AllowedExtensions: set<string> := {".pdf", ".docx"}
  const UploadDir: string := "docs"
  const Splitter: SplitterConfig := SplitterConfig(1000, 200, ["\n\n", "\n", ". ", ""])
  const CollectionName: string := "documents"
  const SearchK: nat := 4
  const Indexed: string := "indexed"
  const ContextSeparator: string := "\n\n"
  const ClearedMessage: string := "Documents cleared successfully"

  predicate NoDup<T(==)>(s: seq<T>)
  {
    forall i, j :: 0 <= i < j < |s| ==> s[i] != s[j]
  }

  /** The registry invariant: `order` lists every key once, and each entry
      records its own key as its id. */
  ghost predicate Inv(s: State)
  {
    && NoDup(s.order)
    && (forall k :: k in s.registry <==> k in s.order)
    && (forall k :: k in s.registry ==> s.registry[k].id == k)
  }

  /** The state at start-up: an empty registry beside whatever the persisted
      vector store and upload directory already hold. */
  function Initial(persisted: seq<Passage>, files: set<string>): (s: State)
    ensures Inv(s) && s.registry == map[] && s.store == persisted
  {
    State(map[], [], persisted, files, [])
  }

  // ---------------------------------------------------------------- upload

  /** The extension test: the lower-cased suffix of the file name is allowed. */
  predicate Accepts(filename: string)
  {
    Lower(Suffix(Name(filename))) in AllowedExtensions
  }

  function TypeOf(ext: string): FileType
  {
    if ext == ".pdf" then Pdf else Docx
  }

  /** Where the upload is saved: `docs/{doc_id}_{filename}`. */
  function SavePath(docId: string, filename: string): (p: string)
    ensures |p| == |UploadDir| + 2 + |docId| + |filename|
    ensures p[..|UploadDir| + 1] == UploadDir + "/"
    ensures p[|p| - |filename| - 1 - |docId|..] == docId + "_" + filename
  {
    UploadDir + "/" + docId + "_" + filename
  }

  function ProcessingFailed(reason: string): Error
  {
    HttpException(500, "Processing dailed: " + reason)
  }

  function Min(a: nat, b: nat): nat
  {
    if a <= b then a else b
  }

  /** `documents_registry[info.id] = info`: a new key goes last, an existing
      key keeps its place and gets the new value. */
  function Register(s: State, info: DocInfo): State
  {
    s.(registry := s.registry[info.id := info],
       order := if info.id in s.registry then s.order else s.order + [info.id])
  }

  /** `upload_file`: check the extension, save the file, load, split, add the
      chunks to the store, and only then write the registry entry. */
  function UploadFile(s: State, filename: string, docId: string, env: Ingest): (State, Result<UploadReply, Error>)
  {
    var ext := Lower(Suffix(Name(filename)));
    if ext !in AllowedExtensions then
      (s, Failure(HttpException(400, "Unsupported file type")))
    else
      var path := SavePath(docId, filename);
      var saving := s.(calls := s.calls + [WriteFile(path)]);
      match env.save(path)
      case Fault(created, e) =>
        (if created then saving.(uploads := saving.uploads + {path}) else saving, Failure(Uncaught(e)))
      case Done =>
        var loading := saving.(uploads := saving.uploads + {path},
                               calls := saving.calls + [LoadFile(TypeOf(ext), path)]);
        match env.load(TypeOf(ext), path)
        case Failure(e) => (loading, Failure(ProcessingFailed(e)))
        case Success(pages) =>
          var splitting := loading.(calls := loading.calls + [SplitPages(Splitter, |pages|)]);
          match env.split(pages)
          case Failure(e) => (splitting, Failure(ProcessingFailed(e)))
          case Success(chunks) =>
            var adding := splitting.(calls := splitting.calls + [AddDocuments(|chunks|)]);
            match env.add(chunks)
            case AddFailed(n, e) =>
              (adding.(store := adding.store + chunks[..Min(n, |chunks|)]), Failure(ProcessingFailed(e)))
            case Added =>
              var info := DocInfo(docId, filename, ext, |chunks|, Indexed);
              (Register(adding.(store := adding.store + chunks), info),
               Success(UploadReply(filename, docId, |chunks|, Indexed)))
  }

  // ----------------------------------------------------------------- query

  /** The page contents of the retrieved chunks, in ranked order. */
  function Contents(results: seq<Passage>): (r: seq<string>)
    ensures |r| == |results|
    ensures forall i :: 0 <= i < |results| ==> r[i] == results[i].content
  {
    if results == [] then [] else [results[0].content] + Contents(results[1..])
  }

  /** The context block: the retrieved texts separated by blank lines. */
  function Context(results: seq<Passage>): string
  {
    Join(ContextSeparator, Contents(results))
  }

  const PromptHead: string := "\n            Answer the question based on the context below. \n\n            Context:\n            "
  const PromptMiddle: string := "\n\n            Question: "
  const PromptTail: string := "\n        "

  /** The prompt sent to the model: the fixed instruction, the context and the
      question, the last two verbatim (see Properties.PromptQuotes). */
  function Prompt(context: string, question: string): string
  {
    PromptHead + context + PromptMiddle + question + PromptTail
  }

  /** `[doc.metadata.get("source") for doc in results]`. */
  function Sources(results: seq<Passage>): (r: seq<Option<string>>)
    ensures |r| == |results|
    ensures forall i :: 0 <= i < |results| ==> r[i] == Get(results[i].metadata, "source")
  {
    if results == [] then [] else [Get(results[0].metadata, "source")] + Sources(results[1..])
  }

  /** What the similarity search promises: at most `k` results, each one a
      distinct entry of the store it searched. */
  ghost predicate SearchHonest(search: (seq<Passage>, string, nat) -> Result<seq<Passage>, string>)
  {
    forall st, q, k :: search(st, q, k).Success? ==>
      |search(st, q, k).value| <= k && multiset(search(st, q, k).value) <= multiset(st)
  }

  function QueryFailed(reason: string): Error
  {
    HttpException(500, "Query failed: " + reason)
  }

  /** `query`: refuse a blank question, search for at most four closest chunks,
      build the prompt from them, and answer with one source per chunk. */
  function Query(s: State, question: string, env: Retrieval): (State, Result<Answer, Error>)
  {
    if Blank(question) then
      (s, Failure(HttpException(400, "Question cannot be empty")))
    else
      var searching := s.(calls := s.calls + [SimilaritySearch(question, SearchK)]);
      match env.search(s.store, question, SearchK)
      case Failure(e) => (searching, Failure(QueryFailed(e)))
      case Success(results) =>
        var prompt := Prompt(Context(results), question);
        var asking := searching.(calls := searching.calls + [InvokeLlm(prompt)]);
        match env.invoke(prompt)
        case Failure(e) => (asking, Failure(QueryFailed(e)))
        case Success(text) => (asking, Success(Answer(text, Sources(results))))
  }

  // ------------------------------------------------------------- documents

  /** `list(documents_registry.values())`: every registry value once, in the
      order the keys were first inserted. */
  function Listing(s: State): (r: seq<DocInfo>)
    requires Inv(s)
    ensures |r| == |s.order|
    ensures forall i :: 0 <= i < |r| ==> r[i] == s.registry[s.order[i]]
    ensures forall d :: d in r <==> d in s.registry.Values
  {
    seq(|s.order|, i requires 0 <= i < |s.order| => s.registry[s.order[i]])
  }

  // ----------------------------------------------------------------- clear

  predicate FailsDuring(fault: ClearFault, stage: ClearStage)
  {
    fault.FailsAt? && fault.stage == stage
  }

  /** `clear_documents`: delete the collection, open a fresh one, clear the
      registry, remove and re-create the upload directory; a failing stage
      ends the request with a 500 and keeps what the earlier stages did. */
  function ClearDocuments(s: State, fault: ClearFault): (State, Result<string, Error>)
  {
    var deleting := s.(calls := s.calls + [DeleteCollection]);
    if FailsDuring(fault, DeleteCollectionStage) then
      (deleting, Failure(HttpException(500, fault.reason)))
    else
      var reopening := deleting.(store := [], calls := deleting.calls + [OpenCollection(CollectionName)]);
      if FailsDuring(fault, ReopenStage) then
        (reopening, Failure(HttpException(500, fault.reason)))
      else
        var removing := reopening.(registry := map[], order := [], calls := reopening.calls + [RemoveTree(UploadDir)]);
        if FailsDuring(fault, RemoveUploadsStage) then
          (removing, Failure(HttpException(500, fault.reason)))
        else
          var making := removing.(uploads := {}, calls := removing.calls + [MakeDir(UploadDir)]);
          if FailsDuring(fault, MakeUploadsStage) then
            (making, Failure(HttpException(500, fault.reason)))
          else
            (making, Success(ClearedMessage))
  }
}
