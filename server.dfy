/** The service as the source runs it: one object whose handlers update the
    registry dictionary, the vector store and the upload directory in place. */
module Server {
  import opened Wrappers
  import opened PyStr
  import opened DocChat
  import Properties

  class Service {
    var registry: map<string, DocInfo>
    var order: seq<string>      // the registry's keys in insertion order
    var store: seq<Passage>
    var uploads: set<string>
    var calls: seq<Call>

    function Snapshot(): State
      reads this
    {
      State(registry, order, store, uploads, calls)
    }

    ghost predicate Valid()
      reads this
    {
      Inv(Snapshot())
    }

    /** Start-up: an empty registry beside the persisted store and files. */
    constructor (persisted: seq<Passage>, files: set<string>)
      ensures Valid() && Snapshot() == Initial(persisted, files)
    {
      registry, order, store, uploads, calls := map[], [], persisted, files, [];
    }

    /** `POST /upload`. */
    method UploadFile(filename: string, docId: string, env: Ingest) returns (r: Result<UploadReply, Error>)
      requires Valid()
      modifies this
      ensures Valid()
      ensures (Snapshot(), r) == DocChat.UploadFile(old(Snapshot()), filename, docId, env)
    {
      ghost var s := Snapshot();
      Properties.UploadPreservesInv(s, filename, docId, env);
      var ext := Lower(Suffix(Name(filename)));
      if ext !in AllowedExtensions {
        return Failure(HttpException(400, "Unsupported file type"));
      }
      var path := SavePath(docId, filename);
      calls := calls + [WriteFile(path)];
      var saved := env.save(path);
      if saved.Fault? {
        if saved.created {
          uploads := uploads + {path};
        }
        return Failure(Uncaught(saved.reason));
      }
      uploads := uploads + {path};
      calls := calls + [LoadFile(TypeOf(ext), path)];
      var loaded := env.load(TypeOf(ext), path);
      if loaded.Failure? {
        return Failure(ProcessingFailed(loaded.error));
      }
      var pages := loaded.value;
      calls := calls + [SplitPages(Splitter, |pages|)];
      var split := env.split(pages);
      if split.Failure? {
        return Failure(ProcessingFailed(split.error));
      }
      var chunks := split.value;
      calls := calls + [AddDocuments(|chunks|)];
      var added := env.add(chunks);
      if added.AddFailed? {
        store := store + chunks[..Min(added.committed, |chunks|)];
        return Failure(ProcessingFailed(added.reason));
      }
      store := store + chunks;
      var info := DocInfo(docId, filename, ext, |chunks|, Indexed);
      if docId !in registry {
        order := order + [docId];
      }
      registry := registry[docId := info];
      r := Success(UploadReply(filename, docId, |chunks|, Indexed));
    }

    /** `POST /query`: only the call log changes. */
    method Query(question: string, env: Retrieval) returns (r: Result<Answer, Error>)
      requires Valid()
      modifies this`calls
      ensures Valid()
      ensures (Snapshot(), r) == DocChat.Query(old(Snapshot()), question, env)
    {
      if Blank(question) {
        return Failure(HttpException(400, "Question cannot be empty"));
      }
      calls := calls + [SimilaritySearch(question, SearchK)];
      var found := env.search(store, question, SearchK);
      if found.Failure? {
        return Failure(QueryFailed(found.error));
      }
      var results := found.value;
      var prompt := Prompt(Context(results), question);
      calls := calls + [InvokeLlm(prompt)];
      var response := env.invoke(prompt);
      if response.Failure? {
        return Failure(QueryFailed(response.error));
      }
      r := Success(Answer(response.value, Sources(results)));
    }

    /** `GET /documents`: the registry's values, one per key, in insertion order. */
    method GetDocuments() returns (docs: seq<DocInfo>)
      requires Valid()
      ensures docs == Listing(Snapshot())
      ensures |docs| == |registry|
      ensures forall d :: d in docs <==> d in registry.Values
    {
      Properties.ListingSize(Snapshot());
      docs := Listing(Snapshot());
    }

    /** `POST /clear`. */
    method ClearDocuments(fault: ClearFault) returns (r: Result<string, Error>)
      requires Valid()
      modifies this
      ensures Valid()
      ensures (Snapshot(), r) == DocChat.ClearDocuments(old(Snapshot()), fault)
    {
      calls := calls + [DeleteCollection];
      if FailsDuring(fault, DeleteCollectionStage) {
        return Failure(HttpException(500, fault.reason));
      }
      store := [];
      calls := calls + [OpenCollection(CollectionName)];
      if FailsDuring(fault, ReopenStage) {
        return Failure(HttpException(500, fault.reason));
      }
      registry, order := map[], [];
      calls := calls + [RemoveTree(UploadDir)];
      if FailsDuring(fault, RemoveUploadsStage) {
        return Failure(HttpException(500, fault.reason));
      }
      uploads := {};
      calls := calls + [MakeDir(UploadDir)];
      if FailsDuring(fault, MakeUploadsStage) {
        return Failure(HttpException(500, fault.reason));
      }
      r := Success(ClearedMessage);
    }
  }
}
