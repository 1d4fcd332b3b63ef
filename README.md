# DocChat request handling, modelled in Dafny

DocChat is a retrieval-augmented question-answering service. It has four HTTP
handlers in `api/main.py`:

- `POST /upload` accepts a PDF or DOCX, saves it under `docs/`, loads it into
  pages, splits the pages into chunks, adds the chunks to a Chroma vector
  store, and records the document in an in-memory registry.
- `POST /query` refuses a blank question. Otherwise it retrieves at most
  four closest chunks, builds a prompt from them, asks the LLM and returns the
  answer with one source per chunk.
- `GET /documents` lists the registry's values.
- `POST /clear` deletes and re-opens the collection, clears the registry, and
  removes and re-creates the upload directory.

The project has five modules:

- `Wrappers` holds `Option`, `Result` and `Get`, which is `dict.get`.
- `PyStr` holds the Python string and `pathlib` semantics the handlers rely
  on: `str.strip` with Python's whitespace set, `str.lower`, `str.rfind`,
  `str.join`, `PurePosixPath.name` and `PurePosixPath.suffix`.
- `DocChat` holds the service state as a value. That state is the registry,
  its key order, the stored chunks, the files under `docs/`, and a log of
  every call made to a collaborator. The module also has one pure function
  per handler, from the old state and the request to the new state and the
  reply. These functions are the specification.
- `Server` holds class `Service`. Its fields are that state, and its methods
  update them in place, as the handlers update the module globals. Each
  method is proved to produce exactly the state and reply of its `DocChat`
  function, and to keep the registry invariant.
- `Properties` holds the lemmas the handlers promise. They cover the
  allowlist, rejecting before any side effect, the registry frame, the
  orphan-chunk failure mode, the shape of the query reply, and the state
  after a clear.

The collaborators are function-valued fields of `Ingest` and `Retrieval`, and
every one of them may fail:

- `save` is the `open`, the `await file.read()` and the `write` of the
  uploaded bytes. When it fails it says whether `open` had already created
  the file. If so, an empty or partial file stays under `docs/`.
- `load` is the loader chosen by file type.
- `split` is the text splitter.
- `add` is `add_documents`. It may fail after committing a prefix of the
  chunks.
- `search` is `similarity_search`.
- `invoke` is the LLM.

Failures of `clear` come in as a `ClearFault` that names the stage that
raises. The call log (`State.calls`) is what makes the order of these steps
observable. For example, "refused before anything else happens" is stated as
"the whole state, call log included, is unchanged".

The registry is a Python `dict`, so its values come out in key-insertion
order. The model keeps the keys' first-insertion order in `order`. The
invariant `Inv` says that `order` lists every key exactly once and that every
entry records its own key as `id`. Writing an existing key again keeps its
place, just as a `dict` does when `uuid4()[:8]` repeats.

Where the code is surprising, the model follows the code:

- A failure in `open`/`write` (`api/main.py:79-81`) occurs before the `try`.
  It is not turned into the handler's `HTTPException(500, "Processing
  dailed: …")`, and it reaches the framework as an uncaught error
  (`Error.Uncaught`).
- The 500 message keeps the source's spelling, `"Processing dailed: "`.
- The registry is not persisted, but the vector store is
  (`persist_directory`). At start-up (`DocChat.Initial`) the store may
  therefore already hold chunks that no registry entry refers to.

## Model

| member | source | states |
|---|---|---|
| PyStr.BlankIff | api/main.py:136 | contract of `PyStr.Blank` and `PyStr.Strip`: `not q.strip()` holds exactly when every character of `q` is Python whitespace; `Blank`, the guard the handlers use, agrees with `Strip(q) == ""` |
| PyStr.BlankAll | api/main.py:136 | the character-by-character guard holds exactly when every character is whitespace |
| PyStr.IsSpaceSet | api/main.py:136 | the whitespace `strip()` removes is exactly CPython's 29 `isspace` code points (tab to carriage return, the four separators 0x1C-0x1F, space, 0x85, 0xA0, 0x1680, 0x2000-0x200A, 0x2028, 0x2029, 0x202F, 0x205F, 0x3000); the zero-width space and the byte-order mark are not among them |
| PyStr.TrimStart | api/main.py:136 | `lstrip` removes a prefix made only of whitespace and stops at the first other character |
| PyStr.TrimEnd | api/main.py:136 | `rstrip` removes a suffix made only of whitespace and stops at the last other character |
| PyStr.Lower | api/main.py:66 | the model's `lower()` keeps the length and maps each character through `LowerChar` |
| PyStr.LowerChar | api/main.py:66 | an ASCII capital maps to its own small letter (code point plus 32); every other character is unchanged |
| PyStr.LastIndex | api/main.py:66 | `rfind`: -1 or an index holding the character, with no occurrence after it |
| PyStr.Name | api/main.py:66 | `Path(f).name` has no `/` and is not `.`; a plain file name is its own name |
| PyStr.NameOfDir | api/main.py:66 | the name of `dir + "/" + f` is `f`, for any directory part |
| PyStr.NameTrailingSlash | api/main.py:66 | a trailing `/` does not change the name |
| PyStr.Suffix | api/main.py:66 | `.suffix` is empty or a dot-led tail of the name without another dot, shorter than the name |
| PyStr.Join | api/main.py:146 | `sep.join` of nothing is empty and of one part is that part |
| PyStr.JoinLayout | api/main.py:146 | in `sep.join(parts)` each part sits verbatim at its offset, followed by `sep` unless it is the last, and the last part ends the string |
| Wrappers.Get | api/main.py:165 | `metadata.get(k)` is `Some(metadata[k])` exactly when the key is present, else `None` |
| DocChat.Initial | api/main.py:39 | at start-up the registry is empty and satisfies the invariant, and the store is whatever was persisted |
| DocChat.Contents | api/main.py:146 | the texts of the results, one per result, in ranked order |
| DocChat.Sources | api/main.py:165 | one `metadata.get("source")` per result, in ranked order, duplicates kept |
| DocChat.Listing | api/main.py:173 | `list(registry.values())`: one entry per key in insertion order, and a value is listed iff it is a registry value |
| Properties.PdfSuffix | api/main.py:66-69 | the lowered suffix is `.pdf` iff the name ends in `.pdf` in any case after at least one character |
| Properties.DocxSuffix | api/main.py:66-69 | the same for `.docx` |
| Properties.SuffixMatches | api/main.py:66-69 | for a dotted lower-case extension without inner dots, the lowered suffix equals it iff the name ends with it in any case after at least one character |
| Properties.AcceptsIff | api/main.py:26-69 | contract of `DocChat.Accepts`: a file is accepted iff its final path component ends in `.pdf` or `.docx`, in any case, after at least one character |
| Properties.AcceptedTypes | api/main.py:85-92 | an accepted upload's `ext` is `.pdf` or `.docx`, and the PDF loader is chosen iff it is `.pdf` |
| Properties.UpperCasePdfAccepted | api/main.py:66-69 | `<stem>.PDF` is accepted |
| Properties.DirectoryPdfAccepted | api/main.py:66-69 | `<dir>/<stem>.PDF` is accepted: only the final component counts |
| Properties.MixedCaseDocxAccepted | api/main.py:66-69 | `<stem>.DocX` is accepted |
| Properties.TxtRejected | api/main.py:66-70 | `<stem>.txt` is refused |
| Properties.BareExtensionRejected | api/main.py:66-70 | `.pdf` on its own has no suffix and is refused |
| DocChat.SavePath | api/main.py:77 | the saved path starts with `docs/` and ends with `{doc_id}_{filename}`, with nothing else in between |
| Properties.SavedName | api/main.py:77 | for a slash-free doc_id and filename, the saved file's name is `{doc_id}_{filename}`, directly under `docs/`; on one doc_id, distinct filenames get distinct paths |
| Properties.UnsupportedChangesNothing | api/main.py:69-70 | a refused extension gives a 400 and the state is unchanged: no file saved, no collaborator called, no registry write, whatever the doc_id |
| Properties.UploadSaveFails | api/main.py:77-81 | `DocChat.UploadFile` when saving fails: the uncaught error with the save's own message; the file is left behind exactly when `open` created it; only the write call is logged; registry and store unchanged |
| Properties.UploadLoadFails | api/main.py:85-95 | when loading fails: the 500 `"Processing dailed: "` followed by the loader's message; the file stays; nothing is split or stored; registry unchanged |
| Properties.UploadSplitFails | api/main.py:97-103 | when splitting fails: the 500 with the splitter's message; nothing is stored; registry unchanged; the call log ends with the split call and its configuration |
| Properties.UploadAddFails | api/main.py:106 | when the store insert fails: the 500 with the store's message; the committed prefix of the chunks stays in the store; no registry entry |
| Properties.UploadFrame | api/main.py:115 | an upload changes no registry key other than its own doc_id |
| Properties.FailedUploadKeepsRegistry | api/main.py:95-126 | a failed upload leaves the registry and its order unchanged |
| Properties.FailedUploadKeepsStore | api/main.py:95-126 | a failed upload keeps every chunk the store held, in place |
| Properties.UploadKeepsFiles | api/main.py:77-126 | no upload, failed or not, removes a file from the upload directory |
| Properties.UploadErrors | api/main.py:66-126 | the 400 happens exactly when the extension is refused; otherwise the error came from a failed save, or is a 500 `"Processing dailed: " + message`; the stage lemmas above say which message |
| Properties.UploadIndexed | api/main.py:73-122 | `DocChat.UploadFile` when every step succeeds: the exact four collaborator calls in order, the chunks appended to the store, the entry `{id, filename, file_type, chunks, "indexed"}` under doc_id, and a reply carrying the same values |
| Properties.UploadSuccess | api/main.py:108-122 | whatever the collaborators do, a successful upload was accepted, and its reply agrees field by field with the stored entry; the store grew by exactly the reported chunks |
| Properties.OrphanChunks | api/main.py:106 | when the store commits some chunks and then fails, the reply is a 500, those chunks stay in the store, the file stays on disk, and the registry does not change |
| Properties.RegisterKeepsInv | api/main.py:115 | writing `registry[doc_id]` keeps the registry invariant |
| Properties.RegisterWrites | api/main.py:115 | contract of `DocChat.Register`: the invariant is kept; the new entry is stored under its id; other keys are untouched; a new key is listed last, and an existing key keeps its place with the new value |
| Properties.UploadPreservesInv | api/main.py:63-126 | every upload, failed or not, keeps the registry invariant |
| Properties.ListingAfterInsert | api/main.py:115 | after writing a key, a new key is listed last; an existing key keeps its place and shows the new value |
| Properties.ListingAfterUpload | api/main.py:115 | after a successful upload, a new document is listed last, and a reused doc_id is replaced in place |
| Properties.ListingSize | api/main.py:173 | the listing has exactly as many entries as the registry has keys |
| Properties.NewUploadListed | api/main.py:108-115 | a successful upload under a new id appends its entry to the listing and keeps every other entry |
| Properties.TwoUploadsListed | api/main.py:108-115 | two successful uploads under new distinct ids are listed in upload order, each with its own chunk count |
| Properties.BlankQueryChangesNothing | api/main.py:136-137 | `DocChat.Query` for a blank question: an all-whitespace question gives a 400 and no search: the state is unchanged |
| Properties.QuestionSearched | api/main.py:142 | a question with a non-space character is searched first, with k = 4 |
| Properties.QueryKeepsData | api/main.py:129-168 | a query never changes the registry, the store or the upload directory, and it only appends to the call log |
| Properties.QueryAnswered | api/main.py:142-166 | `DocChat.Query` for a non-blank question whose search and LLM call succeed: the answer is `Answer(text, Sources(results))`; the call log gains exactly the search and then the LLM call |
| Properties.QuerySearchFails | api/main.py:142-168 | when the search fails: the 500 `"Query failed: " + message`; only the search is logged |
| Properties.QueryLlmFails | api/main.py:159-168 | when the LLM call fails: the 500 `"Query failed: " + message`, after both calls |
| Properties.QuerySuccess | api/main.py:142-166 | an answer is the LLM's reply to the prompt built from the search results; the call log has exactly the search and then the LLM call; there is one source per result, in order |
| Properties.ContextLayout | api/main.py:146 | contract of `DocChat.Context`: the context holds the retrieved texts verbatim in ranked order, with `"\n\n"` between consecutive texts and nothing after the last |
| Properties.PromptQuotes | api/main.py:148-155 | contract of `DocChat.Prompt`: the prompt is the fixed instruction, then the context verbatim, then `Question: `, then the question verbatim, then the closing text |
| Properties.SourcesFromStore | api/main.py:142-165 | when the search returns distinct stored chunks, at most four, an answer has at most four sources, each the source of a stored chunk |
| Properties.EmptyStoreQuery | api/main.py:142-165 | against an empty store the prompt has an empty context and an answer lists no sources |
| Properties.ClearSuccess | api/main.py:175-197 | `DocChat.ClearDocuments` without a fault: a successful clear empties the registry, the store and the upload directory after exactly the four calls in order, and the listing is empty |
| Properties.ClearStages | api/main.py:181-199 | `DocChat.ClearDocuments` with a fault: a failing stage gives a 500 carrying its message; the clear stops there, with the calls up to the failing one logged in order; the state is exactly what the earlier stages made it: a failed delete or re-open keeps the registry and its key order, a failed directory removal has emptied the registry, its order and the store, and a failed re-creation has also emptied the upload directory |
| Properties.ClearPreservesInv | api/main.py:175-199 | every clear, failed or not, keeps the registry invariant |
| Properties.ClearThenQuery | api/main.py:142-191 | with a search that returns only stored chunks (`SearchHonest`), after a successful clear an answer to any question lists no sources |
| Server.Service.constructor | api/main.py:39 | the service starts with an empty registry over the persisted store |
| Server.Service.UploadFile | api/main.py:63-126 | the in-place upload yields exactly `DocChat.UploadFile`'s state and reply, and keeps the invariant |
| Server.Service.Query | api/main.py:129-168 | the in-place query changes only the call log, yields exactly `DocChat.Query`'s state and reply, and keeps the invariant |
| Server.Service.GetDocuments | api/main.py:171-173 | returns the registry's values in insertion order, one per key, and nothing else |
| Server.Service.ClearDocuments | api/main.py:175-199 | the in-place clear yields exactly `DocChat.ClearDocuments`'s state and reply, and keeps the invariant |

## Left out

- Text splitting: `RecursiveCharacterTextSplitter` (chunk size 1000, overlap 200, separators at `api/main.py:97-101`) lives in a library that is not part of this model. `split` is an opaque collaborator, and the model only records the configuration passed to it.
- Embeddings and similarity ranking: these are external and floating-point. `search` is opaque. `SourcesFromStore`, `EmptyStoreQuery` and `ClearThenQuery` assume, as a precondition (`SearchHonest`), that it returns at most k distinct stored chunks.
- The LLM: `invoke` is opaque. Only the prompt text given to it is modelled.
- File contents and I/O: the bytes of the upload, the loaders' parsing, and Chroma's persistence are not modelled. The upload directory is the set of saved paths. A saved path is `"docs/" + doc_id + "_" + filename`, without `pathlib` normalisation.
- Partial `shutil.rmtree`: when removing the directory fails, the model keeps the set of saved files unchanged, whereas the real call may have deleted some of them.
- After a failed re-open in `clear` the global still refers to the deleted collection. The model only records that the store is empty at that point.
- `uuid4()[:8]`: the `doc_id` is a parameter of the upload. A collision is still covered, because it overwrites the entry in place.
- The `EMBEDDINGS` choice, the unused `llm` (Ollama), `print` logging, FastAPI routing, CORS, `async`, and any concurrency between requests are transport or process plumbing.
- `web/src/App.jsx` is UI and network code and is not part of this model.
- PyStr.Lower: maps character by character and keeps the length. Python's `str.lower` does not always do that: `"İ".lower()` has two characters, and `Σ` lowers according to its context. Neither case can produce `.pdf` or `.docx`.
- PyStr.LowerChar: lowers ASCII letters only. Python's `str.lower` also lowers other letters, but no non-ASCII character lowers to one of `.pdf` or `.docx`, so the allowlist decision is the same.
- `Path(file.filename)` is modelled as `PurePosixPath`, which is what it is on a POSIX host. On Windows `\` also separates components, so `x\.pdf` has the name `.pdf`, no suffix, and is refused; the model accepts it.
- PyStr.Suffix: follows the Python 3.13 and earlier rule, under which a name that ends in a dot has no suffix.
