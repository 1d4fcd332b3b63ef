/** What the handlers promise, stated over the functions of module DocChat. */
module Properties {
  import opened Wrappers
  import opened PyStr
  import opened DocChat

  // ------------------------------------------------------- extension check

  /** A name ends with an extension, compared without case, and has at least
      one character before it. */
  predicate EndsWithExtension(name: string, ext: string)
  {
    |ext| < |name| && Lower(name[|name| - |ext|..]) == ext
  }

  lemma LowerIsDot(c: char)
    ensures LowerChar(c) == '.' <==> c == '.'
  {
  }

  /** For an extension made of a dot and dot-free lower-case characters, the
      lower-cased suffix of a name is that extension only when the name ends
      with it, compared without case, after at least one other character. */
  lemma SuffixMatchesOnly(n: string, ext: string)
    requires 2 <= |ext| && ext[0] == '.'
    requires Lower(Suffix(n)) == ext
    ensures EndsWithExtension(n, ext)
  {
    assert Suffix(n) != "";
    assert n[|n| - |ext|..] == Suffix(n);
  }

  /** In a name ending with such an extension, compared without case, the
      extension's dot is the last dot of the name. */
  lemma LastDotOfEnding(n: string, ext: string)
    requires 2 <= |ext| && ext[0] == '.'
    requires forall m :: 0 < m < |ext| ==> ext[m] != '.'
    requires EndsWithExtension(n, ext)
    ensures LastIndex(n, '.') == |n| - |ext|
  {
    var j := |n| - |ext|;
    var tail := n[j..];
    forall m | j <= m < |n| ensures LowerChar(n[m]) == ext[m - j] {
      assert tail[m - j] == n[m];
    }
    LowerIsDot(n[j]);
    forall m | j < m < |n| ensures n[m] != '.' {
      LowerIsDot(n[m]);
    }
  }

  lemma SuffixMatchesIf(n: string, ext: string)
    requires 2 <= |ext| && ext[0] == '.' && Lower(ext) == ext
    requires forall m :: 0 < m < |ext| ==> ext[m] != '.'
    requires EndsWithExtension(n, ext)
    ensures Lower(Suffix(n)) == ext
  {
    LastDotOfEnding(n, ext);
    assert Suffix(n) == n[|n| - |ext|..];
  }

  /** For an extension made of a dot and dot-free lower-case characters, the
      lower-cased suffix of a name is that extension exactly when the name ends
      with it, compared without case, after at least one other character. */
  lemma SuffixMatches(n: string, ext: string)
    requires 2 <= |ext| && ext[0] == '.' && Lower(ext) == ext
    requires forall m :: 0 < m < |ext| ==> ext[m] != '.'
    ensures Lower(Suffix(n)) == ext <==> EndsWithExtension(n, ext)
  {
    if Lower(Suffix(n)) == ext {
      SuffixMatchesOnly(n, ext);
    }
    if EndsWithExtension(n, ext) {
      SuffixMatchesIf(n, ext);
    }
  }

  lemma PdfSuffix(n: string)
    ensures Lower(Suffix(n)) == ".pdf" <==> EndsWithExtension(n, ".pdf")
  {
    assert Lower(".pdf") == ".pdf";
    SuffixMatches(n, ".pdf");
  }

  lemma DocxSuffix(n: string)
    ensures Lower(Suffix(n)) == ".docx" <==> EndsWithExtension(n, ".docx")
  {
    assert Lower(".docx") == ".docx";
    SuffixMatches(n, ".docx");
  }

  /** A file is accepted exactly when its final path component ends in `.pdf`
      or `.docx`, in any mix of upper and lower case, after at least one other
      character. */
  lemma AcceptsIff(filename: string)
    ensures Accepts(filename) <==>
              EndsWithExtension(Name(filename), ".pdf") || EndsWithExtension(Name(filename), ".docx")
  {
    var n := Name(filename);
    AllowedIff(Lower(Suffix(n)));
    PdfSuffix(n);
    DocxSuffix(n);
  }

  /** The allowlist holds exactly the two extensions. */
  lemma AllowedIff(ext: string)
    ensures ext in AllowedExtensions <==> ext == ".pdf" || ext == ".docx"
  {
  }

  /** An accepted file has type `.pdf` or `.docx`, and the loader is chosen by it. */
  lemma AcceptedTypes(filename: string)
    requires Accepts(filename)
    ensures var ext := Lower(Suffix(Name(filename)));
            && (ext == ".pdf" || ext == ".docx")
            && (TypeOf(ext) == Pdf <==> ext == ".pdf")
  {
  }

  /** A file name without directories is its own final component, and ends
      with its extension. */
  lemma PlainName(stem: string, ext: string)
    requires stem != [] && ext != [] && '/' !in stem && '/' !in ext
    ensures Name(stem + ext) == stem + ext
    ensures (stem + ext)[|stem| ..] == ext
  {
    var f := stem + ext;
    assert '/' !in f;
    assert |f| >= 2;
  }

  lemma LowerPdf()
    ensures Lower(".PDF") == ".pdf"
  {
  }

  /** The extension test ignores case: `<stem>.PDF` passes. */
  lemma UpperCasePdfAccepted(stem: string)
    requires stem != [] && '/' !in stem
    ensures Accepts(stem + ".PDF")
  {
    var f := stem + ".PDF";
    PlainName(stem, ".PDF");
    assert EndsWithExtension(f, ".pdf") by {
      assert f[|f| - 4..] == ".PDF";
      LowerPdf();
    }
    AcceptsIff(f);
  }

  /** Only the final component counts: `<dir>/<stem>.PDF` passes, whatever the
      directory part says. */
  lemma DirectoryPdfAccepted(dir: string, stem: string)
    requires stem != [] && '/' !in stem
    ensures Accepts(dir + "/" + (stem + ".PDF"))
  {
    var f := stem + ".PDF";
    assert '/' !in f;
    NameOfDir(dir, f);
    UpperCasePdfAccepted(stem);
  }

  /** `<stem>.DocX` passes. */
  lemma MixedCaseDocxAccepted(stem: string)
    requires stem != [] && '/' !in stem
    ensures Accepts(stem + ".DocX")
  {
    var f := stem + ".DocX";
    PlainName(stem, ".DocX");
    assert EndsWithExtension(f, ".docx") by {
      assert f[|f| - 5..] == ".DocX";
      LowerDocX();
    }
    AcceptsIff(f);
  }

  lemma LowerDocX()
    ensures Lower(".DocX") == ".docx"
  {
  }

  /** Any other extension fails: `<stem>.txt` is refused. */
  lemma TxtRejected(stem: string)
    requires stem != [] && '/' !in stem
    ensures !Accepts(stem + ".txt")
  {
    var f := stem + ".txt";
    PlainName(stem, ".txt");
    assert f[|f| - 4..] == ".txt";
    assert Lower(".txt") == ".txt";
    assert Lower(f[|f| - 5..])[1] == '.';
    AcceptsIff(f);
  }

  /** A bare extension is no suffix at all: `.pdf` is refused. */
  lemma BareExtensionRejected()
    ensures !Accepts(".pdf")
  {
    AcceptsIff(".pdf");
  }

  // ---------------------------------------------------------------- upload

  /** The saved file sits directly in the upload directory under the name
      `{doc_id}_{filename}`, so on one doc_id distinct filenames never
      share a path. */
  lemma SavedName(docId: string, filename: string)
    requires '/' !in docId && '/' !in filename
    ensures Name(SavePath(docId, filename)) == docId + "_" + filename
    ensures forall other :: SavePath(docId, other) == SavePath(docId, filename) ==> other == filename
  {
    var f := docId + "_" + filename;
    assert '/' !in f by {
      forall i | 0 <= i < |f| ensures f[i] != '/' {
        if i < |docId| { assert f[i] == docId[i]; }
        else if i > |docId| { assert f[i] == filename[i - |docId| - 1]; }
      }
    }
    assert f != "." by { assert |f| >= 1 && f[|docId|] == '_'; }
    assert SavePath(docId, filename) == UploadDir + "/" + f;
    NameOfDir(UploadDir, f);
    forall other | SavePath(docId, other) == SavePath(docId, filename) ensures other == filename {
      var p := SavePath(docId, other);
      assert |other| == |filename|;
      assert other == p[|p| - |other|..];
    }
  }

  /** An unsupported extension is refused with a 400 before anything else
      happens: no file written, no collaborator called, no state changed. */
  lemma UnsupportedChangesNothing(s: State, filename: string, docId: string, env: Ingest)
    requires !Accepts(filename)
    ensures UploadFile(s, filename, docId, env) == (s, Failure(HttpException(400, "Unsupported file type")))
  {
  }

  /** A fault while saving escapes uncaught with its own message; the file stays
      behind exactly when `open` created it, and nothing is loaded or stored. */
  lemma UploadSaveFails(s: State, filename: string, docId: string, env: Ingest, created: bool, reason: string)
    requires Accepts(filename)
    requires env.save(SavePath(docId, filename)) == Fault(created, reason)
    ensures var (s', r) := UploadFile(s, filename, docId, env);
            var path := SavePath(docId, filename);
            && r == Failure(Uncaught(reason))
            && s'.registry == s.registry && s'.order == s.order && s'.store == s.store
            && s'.uploads == (if created then s.uploads + {path} else s.uploads)
            && s'.calls == s.calls + [WriteFile(path)]
  {
  }

  /** A failed load is the 500 `"Processing dailed: " + message`; the saved file
      stays and nothing is split or stored. */
  lemma UploadLoadFails(s: State, filename: string, docId: string, env: Ingest, reason: string)
    requires Accepts(filename)
    requires env.save(SavePath(docId, filename)) == Done
    requires env.load(TypeOf(Lower(Suffix(Name(filename)))), SavePath(docId, filename)) == Failure(reason)
    ensures var (s', r) := UploadFile(s, filename, docId, env);
            var path := SavePath(docId, filename);
            && r == Failure(HttpException(500, "Processing dailed: " + reason))
            && s'.registry == s.registry && s'.order == s.order && s'.store == s.store
            && s'.uploads == s.uploads + {path}
            && s'.calls == s.calls + [WriteFile(path)] + [LoadFile(TypeOf(Lower(Suffix(Name(filename)))), path)]
  {
  }

  /** A failed split is the 500 `"Processing dailed: " + message`; nothing is stored. */
  lemma UploadSplitFails(s: State, filename: string, docId: string, env: Ingest,
                         pages: seq<Passage>, reason: string)
    requires Accepts(filename)
    requires env.save(SavePath(docId, filename)) == Done
    requires env.load(TypeOf(Lower(Suffix(Name(filename)))), SavePath(docId, filename)) == Success(pages)
    requires env.split(pages) == Failure(reason)
    ensures var (s', r) := UploadFile(s, filename, docId, env);
            var path := SavePath(docId, filename);
            && r == Failure(HttpException(500, "Processing dailed: " + reason))
            && s'.registry == s.registry && s'.order == s.order && s'.store == s.store
            && s'.uploads == s.uploads + {path}
            && s'.calls == s.calls + [WriteFile(path)] + [LoadFile(TypeOf(Lower(Suffix(Name(filename)))), path)]
                               + [SplitPages(Splitter, |pages|)]
  {
  }

  /** A failed store insert is the 500 `"Processing dailed: " + message`; the
      chunks the store committed before failing stay, and no entry is written. */
  lemma UploadAddFails(s: State, filename: string, docId: string, env: Ingest,
                       pages: seq<Passage>, chunks: seq<Passage>, committed: nat, reason: string)
    requires Accepts(filename)
    requires env.save(SavePath(docId, filename)) == Done
    requires env.load(TypeOf(Lower(Suffix(Name(filename)))), SavePath(docId, filename)) == Success(pages)
    requires env.split(pages) == Success(chunks)
    requires env.add(chunks) == AddFailed(committed, reason)
    ensures var (s', r) := UploadFile(s, filename, docId, env);
            var path := SavePath(docId, filename);
            && r == Failure(HttpException(500, "Processing dailed: " + reason))
            && s'.registry == s.registry && s'.order == s.order
            && s'.store == s.store + chunks[..Min(committed, |chunks|)]
            && s'.uploads == s.uploads + {path}
            && s'.calls == s.calls + [WriteFile(path)] + [LoadFile(TypeOf(Lower(Suffix(Name(filename)))), path)]
                               + [SplitPages(Splitter, |pages|)] + [AddDocuments(|chunks|)]
  {
  }

  /** When every collaborator succeeds, the upload appends the chunks to the
      store, registers `{id, filename, file_type, chunks, status}` under its
      doc_id after exactly the four collaborator calls, and replies with the
      values it registered. */
  lemma UploadIndexed(s: State, filename: string, docId: string, env: Ingest,
                      pages: seq<Passage>, chunks: seq<Passage>)
    requires Accepts(filename)
    requires env.save(SavePath(docId, filename)) == Done
    requires env.load(TypeOf(Lower(Suffix(Name(filename)))), SavePath(docId, filename)) == Success(pages)
    requires env.split(pages) == Success(chunks)
    requires env.add(chunks) == Added
    ensures var (s', r) := UploadFile(s, filename, docId, env);
            var ext := Lower(Suffix(Name(filename)));
            var path := SavePath(docId, filename);
            var info := DocInfo(docId, filename, ext, |chunks|, "indexed");
            && r == Success(UploadReply(info.filename, info.id, info.chunks, info.status))
            && s'.registry == s.registry[docId := info]
            && s'.order == (if docId in s.registry then s.order else s.order + [docId])
            && s'.store == s.store + chunks
            && s'.uploads == s.uploads + {path}
            && s'.calls == s.calls + [WriteFile(path)] + [LoadFile(TypeOf(ext), path)]
                               + [SplitPages(Splitter, |pages|)] + [AddDocuments(|chunks|)]
  {
  }

  /** An upload touches at most its own registry key. */
  lemma UploadFrame(s: State, filename: string, docId: string, env: Ingest)
    ensures var s' := UploadFile(s, filename, docId, env).0;
            forall k :: k != docId ==>
              (k in s'.registry <==> k in s.registry) && (k in s.registry ==> s'.registry[k] == s.registry[k])
  {
    var ext := Lower(Suffix(Name(filename)));
    var path := SavePath(docId, filename);
    if !Accepts(filename) {
      UnsupportedChangesNothing(s, filename, docId, env);
    } else {
      match env.save(path)
      case Fault(created, e) => UploadSaveFails(s, filename, docId, env, created, e);
      case Done =>
        match env.load(TypeOf(ext), path)
        case Failure(e) => UploadLoadFails(s, filename, docId, env, e);
        case Success(pages) =>
          match env.split(pages)
          case Failure(e) => UploadSplitFails(s, filename, docId, env, pages, e);
          case Success(chunks) =>
            match env.add(chunks)
            case AddFailed(n, e) =>
              UploadAddFails(s, filename, docId, env, pages, chunks, n, e);
            case Added =>
              UploadIndexed(s, filename, docId, env, pages, chunks);
    }
  }

  /** A failed upload leaves the registry and its order as they were. */
  lemma FailedUploadKeepsRegistry(s: State, filename: string, docId: string, env: Ingest)
    ensures var (s', r) := UploadFile(s, filename, docId, env);
            r.Failure? ==> s'.registry == s.registry && s'.order == s.order
  {
    var ext := Lower(Suffix(Name(filename)));
    var path := SavePath(docId, filename);
    if ext in AllowedExtensions && env.save(path).Done? && env.load(TypeOf(ext), path).Success? {
      var pages := env.load(TypeOf(ext), path).value;
      if env.split(pages).Success? {
      }
    }
  }

  /** A failed upload keeps every chunk the store held: chunks are not rolled back. */
  lemma FailedUploadKeepsStore(s: State, filename: string, docId: string, env: Ingest)
    ensures var (s', r) := UploadFile(s, filename, docId, env);
            r.Failure? ==> |s.store| <= |s'.store| && s'.store[..|s.store|] == s.store
  {
    var ext := Lower(Suffix(Name(filename)));
    var path := SavePath(docId, filename);
    var s' := UploadFile(s, filename, docId, env).0;
    if ext in AllowedExtensions && env.save(path).Done? && env.load(TypeOf(ext), path).Success? {
      var pages := env.load(TypeOf(ext), path).value;
      if env.split(pages).Success? {
        var chunks := env.split(pages).value;
        if env.add(chunks).AddFailed? {
          var n := Min(env.add(chunks).committed, |chunks|);
          assert s'.store == s.store + chunks[..n];
          assert (s.store + chunks[..n])[..|s.store|] == s.store;
        }
      }
    } else {
      assert s'.store == s.store;
    }
  }

  /** No upload, failed or not, removes a file from the upload directory. */
  lemma UploadKeepsFiles(s: State, filename: string, docId: string, env: Ingest)
    ensures s.uploads <= UploadFile(s, filename, docId, env).0.uploads
  {
    var ext := Lower(Suffix(Name(filename)));
    var path := SavePath(docId, filename);
    if ext in AllowedExtensions {
      assert s.uploads <= s.uploads + {path};
    }
  }

  /** The error an upload ends with: a 400 exactly for a refused extension;
      otherwise the escaped error of a failed save, or a 500 carrying the
      collaborator's message. */
  lemma UploadErrors(s: State, filename: string, docId: string, env: Ingest)
    ensures var r := UploadFile(s, filename, docId, env).1;
            r.Failure? ==>
              && (r.error == HttpException(400, "Unsupported file type") <==> !Accepts(filename))
              && (Accepts(filename) ==>
                    || (r.error.Uncaught? && env.save(SavePath(docId, filename)).Fault? && env.save(SavePath(docId, filename)).reason == r.error.reason)
                    || exists e :: r.error == HttpException(500, "Processing dailed: " + e))
  {
    var ext := Lower(Suffix(Name(filename)));
    var path := SavePath(docId, filename);
    if !Accepts(filename) {
      UnsupportedChangesNothing(s, filename, docId, env);
    } else {
      match env.save(path)
      case Fault(created, e) => UploadSaveFails(s, filename, docId, env, created, e);
      case Done =>
        match env.load(TypeOf(ext), path)
        case Failure(e) => UploadLoadFails(s, filename, docId, env, e);
        case Success(pages) =>
          match env.split(pages)
          case Failure(e) => UploadSplitFails(s, filename, docId, env, pages, e);
          case Success(chunks) =>
            match env.add(chunks)
            case AddFailed(n, e) =>
              UploadAddFails(s, filename, docId, env, pages, chunks, n, e);
            case Added =>
              UploadIndexed(s, filename, docId, env, pages, chunks);
    }
  }

  /** Whatever the collaborators do, a successful upload is the case above:
      the extension is `.pdf` or `.docx` and the reply agrees with the stored
      entry field for field. */
  lemma UploadSuccess(s: State, filename: string, docId: string, env: Ingest)
    ensures var (s', r) := UploadFile(s, filename, docId, env);
            r.Success? ==>
              var ext := Lower(Suffix(Name(filename)));
              && Accepts(filename)
              && docId in s'.registry
              && s'.registry[docId] == DocInfo(docId, filename, ext, r.value.chunks, "indexed")
              && r.value.filename == s'.registry[docId].filename
              && r.value.docId == s'.registry[docId].id
              && r.value.chunks == s'.registry[docId].chunks
              && r.value.status == s'.registry[docId].status
              && |s'.store| == |s.store| + r.value.chunks && s'.store[..|s.store|] == s.store
  {
    var ext := Lower(Suffix(Name(filename)));
    var path := SavePath(docId, filename);
    if ext in AllowedExtensions && env.save(path).Done? && env.load(TypeOf(ext), path).Success? {
      var pages := env.load(TypeOf(ext), path).value;
      if env.split(pages).Success? {
        var chunks := env.split(pages).value;
        if env.add(chunks).Added? {
          UploadIndexed(s, filename, docId, env, pages, chunks);
          assert (s.store + chunks)[..|s.store|] == s.store;
        }
      }
    }
  }

  /** The orphan-chunk failure mode: when the store commits some chunks and then
      fails, the request ends with a 500, the chunks stay in the store and the
      saved file stays on disk, but no registry entry refers to them. */
  lemma OrphanChunks(s: State, filename: string, docId: string, env: Ingest,
                     pages: seq<Passage>, chunks: seq<Passage>, committed: nat, reason: string)
    requires Accepts(filename)
    requires env.save(SavePath(docId, filename)) == Done
    requires env.load(TypeOf(Lower(Suffix(Name(filename)))), SavePath(docId, filename)) == Success(pages)
    requires env.split(pages) == Success(chunks)
    requires env.add(chunks) == AddFailed(committed, reason)
    requires 0 < committed <= |chunks|
    ensures var (s', r) := UploadFile(s, filename, docId, env);
            && r == Failure(HttpException(500, "Processing dailed: " + reason))
            && s'.store == s.store + chunks[..committed] && |s'.store| > |s.store|
            && s'.registry == s.registry
            && SavePath(docId, filename) in s'.uploads
  {
  }

  /** Writing a registry entry under its own id keeps the registry invariant. */
  lemma RegisterKeepsInv(s: State, t: State, info: DocInfo)
    requires Inv(s)
    requires t.registry == s.registry[info.id := info]
    requires t.order == if info.id in s.registry then s.order else s.order + [info.id]
    ensures Inv(t)
  {
    if info.id !in s.registry {
      forall i, j | 0 <= i < j < |t.order| ensures t.order[i] != t.order[j] {
        if j == |s.order| {
          assert s.order[i] in s.order;
        }
      }
    }
  }

  /** Every upload, failed or not, keeps the registry invariant. */
  lemma UploadPreservesInv(s: State, filename: string, docId: string, env: Ingest)
    requires Inv(s)
    ensures Inv(UploadFile(s, filename, docId, env).0)
  {
    var ext := Lower(Suffix(Name(filename)));
    var path := SavePath(docId, filename);
    if !Accepts(filename) {
      UnsupportedChangesNothing(s, filename, docId, env);
    } else {
      match env.save(path)
      case Fault(created, e) => UploadSaveFails(s, filename, docId, env, created, e);
      case Done =>
        match env.load(TypeOf(ext), path)
        case Failure(e) => UploadLoadFails(s, filename, docId, env, e);
        case Success(pages) =>
          match env.split(pages)
          case Failure(e) => UploadSplitFails(s, filename, docId, env, pages, e);
          case Success(chunks) =>
            match env.add(chunks)
            case AddFailed(n, e) =>
              UploadAddFails(s, filename, docId, env, pages, chunks, n, e);
            case Added =>
              UploadIndexed(s, filename, docId, env, pages, chunks);
              RegisterKeepsInv(s, UploadFile(s, filename, docId, env).0, DocInfo(docId, filename, ext, |chunks|, Indexed));
    }
  }

  /** Writing a key into the registry: a new key is listed last, an existing
      key keeps its place and shows the new value. */
  lemma ListingAfterInsert(s: State, s': State, info: DocInfo)
    requires Inv(s) && Inv(s')
    requires s'.registry == s.registry[info.id := info]
    requires s'.order == if info.id in s.registry then s.order else s.order + [info.id]
    ensures info.id in s.registry ==>
              |Listing(s')| == |Listing(s)| &&
              forall i :: 0 <= i < |Listing(s)| ==>
                Listing(s')[i] == if s.order[i] == info.id then info else Listing(s)[i]
    ensures info.id !in s.registry ==> Listing(s') == Listing(s) + [info]
  {
    if info.id !in s.registry {
      var a, b := Listing(s'), Listing(s) + [info];
      assert |a| == |b|;
      forall i | 0 <= i < |a| ensures a[i] == b[i] {
        if i < |s.order| {
          assert s.order[i] in s.order;
        }
      }
    }
  }

  /** `documents_registry[doc_id] = doc_info`, as `DocChat.Register` does it:
      the invariant is kept, a new key is listed last, and an existing key keeps
      its place and shows the new value, as in a Python `dict`. */
  lemma RegisterWrites(s: State, info: DocInfo)
    requires Inv(s)
    ensures var t := Register(s, info);
            && Inv(t)
            && t.registry[info.id] == info
            && (forall k :: k != info.id ==> (k in t.registry <==> k in s.registry))
            && (forall k :: k != info.id && k in s.registry ==> t.registry[k] == s.registry[k])
            && (info.id !in s.registry ==> Listing(t) == Listing(s) + [info])
            && (info.id in s.registry ==>
                  |Listing(t)| == |Listing(s)| &&
                  forall i :: 0 <= i < |Listing(s)| ==>
                    Listing(t)[i] == if s.order[i] == info.id then info else Listing(s)[i])
  {
    RegisterKeepsInv(s, Register(s, info), info);
    ListingAfterInsert(s, Register(s, info), info);
  }

  /** A new document is listed last; re-using an existing doc_id replaces that
      entry in place and lists nothing new. */
  lemma ListingAfterUpload(s: State, filename: string, docId: string, env: Ingest)
    requires Inv(s)
    ensures var (s', r) := UploadFile(s, filename, docId, env);
            Inv(s') && (r.Success? ==>
              docId in s'.registry &&
              if docId in s.registry then
                |Listing(s')| == |Listing(s)| &&
                forall i :: 0 <= i < |Listing(s)| ==>
                  Listing(s')[i] == if s.order[i] == docId then s'.registry[docId] else Listing(s)[i]
              else
                Listing(s') == Listing(s) + [s'.registry[docId]])
  {
    UploadPreservesInv(s, filename, docId, env);
    var ext := Lower(Suffix(Name(filename)));
    var path := SavePath(docId, filename);
    if ext in AllowedExtensions && env.save(path).Done? && env.load(TypeOf(ext), path).Success? {
      var pages := env.load(TypeOf(ext), path).value;
      if env.split(pages).Success? {
        var chunks := env.split(pages).value;
        if env.add(chunks).Added? {
          UploadIndexed(s, filename, docId, env, pages, chunks);
          ListingAfterInsert(s, UploadFile(s, filename, docId, env).0, DocInfo(docId, filename, ext, |chunks|, "indexed"));
        }
      }
    }
  }

  lemma {:induction false} DistinctCard<T>(xs: seq<T>)
    requires NoDup(xs)
    ensures |set x | x in xs| == |xs|
  {
    if xs != [] {
      var rest := xs[1..];
      assert NoDup(rest);
      DistinctCard(rest);
      assert (set x | x in xs) == (set x | x in rest) + {xs[0]};
      assert xs[0] !in rest;
    }
  }

  /** The listing has exactly as many entries as the registry has keys. */
  lemma ListingSize(s: State)
    requires Inv(s)
    ensures |Listing(s)| == |s.registry|
  {
    DistinctCard(s.order);
    assert (set x | x in s.order) == s.registry.Keys;
  }

  /** A successful upload under a new id is listed last, with its own chunk
      count, and every other entry stays as it was. */
  lemma NewUploadListed(s: State, filename: string, docId: string, env: Ingest)
    requires Inv(s) && docId !in s.registry
    requires UploadFile(s, filename, docId, env).1.Success?
    ensures var (s', r) := UploadFile(s, filename, docId, env);
            && Inv(s')
            && docId in s'.registry
            && Listing(s') == Listing(s) + [s'.registry[docId]]
            && s'.registry[docId].chunks == r.value.chunks
            && forall k :: k in s.registry ==> k in s'.registry && s'.registry[k] == s.registry[k]
  {
    ListingAfterUpload(s, filename, docId, env);
    UploadSuccess(s, filename, docId, env);
    UploadFrame(s, filename, docId, env);
  }

  /** Two successful uploads under distinct new ids are both listed, in upload
      order, each with its own chunk count. */
  lemma TwoUploadsListed(s: State, f1: string, id1: string, e1: Ingest, f2: string, id2: string, e2: Ingest)
    requires Inv(s) && id1 !in s.registry && id2 !in s.registry && id1 != id2
    requires UploadFile(s, f1, id1, e1).1.Success?
    requires UploadFile(UploadFile(s, f1, id1, e1).0, f2, id2, e2).1.Success?
    ensures var (s1, r1) := UploadFile(s, f1, id1, e1);
            var (s2, r2) := UploadFile(s1, f2, id2, e2);
            && Inv(s1) && Inv(s2)
            && Listing(s2) == Listing(s) + [s2.registry[id1], s2.registry[id2]]
            && s2.registry[id1].chunks == r1.value.chunks
            && s2.registry[id2].chunks == r2.value.chunks
  {
    var (s1, r1) := UploadFile(s, f1, id1, e1);
    NewUploadListed(s, f1, id1, e1);
    assert id2 !in s1.registry by {
      UploadFrame(s, f1, id1, e1);
    }
    NewUploadListed(s1, f2, id2, e2);
  }

  // ----------------------------------------------------------------- query

  /** An empty or whitespace-only question is refused with a 400 and no search
      is made: the state, the call log included, is unchanged. */
  lemma BlankQueryChangesNothing(s: State, question: string, env: Retrieval)
    requires forall i :: 0 <= i < |question| ==> IsSpace(question[i])
    ensures Query(s, question, env) == (s, Failure(HttpException(400, "Question cannot be empty")))
  {
    BlankIff(question);
  }

  /** A question with a non-space character goes to the search, with k = 4. */
  lemma QuestionSearched(s: State, question: string, env: Retrieval)
    requires exists i :: 0 <= i < |question| && !IsSpace(question[i])
    ensures var c := Query(s, question, env).0.calls;
            |s.calls| < |c| && c[..|s.calls| + 1] == s.calls + [SimilaritySearch(question, SearchK)]
  {
    BlankIff(question);
    var searching := s.calls + [SimilaritySearch(question, SearchK)];
    match env.search(s.store, question, SearchK)
    case Failure(e) =>
      assert Query(s, question, env).0.calls == searching;
      assert searching[..|s.calls| + 1] == searching;
    case Success(results) =>
      var asking := searching + [InvokeLlm(Prompt(Context(results), question))];
      assert Query(s, question, env).0.calls == asking;
      assert asking[..|s.calls| + 1] == searching;
  }

  /** A query never changes the registry, the store or the upload directory. */
  lemma QueryKeepsData(s: State, question: string, env: Retrieval)
    ensures var s' := Query(s, question, env).0;
            && s'.registry == s.registry && s'.order == s.order
            && s'.store == s.store && s'.uploads == s.uploads
            && |s.calls| <= |s'.calls| && s'.calls[..|s.calls|] == s.calls
  {
    if !Blank(question) {
      var searching := s.calls + [SimilaritySearch(question, SearchK)];
      assert searching[..|s.calls|] == s.calls;
      if env.search(s.store, question, SearchK).Success? {
        var results := env.search(s.store, question, SearchK).value;
        assert (searching + [InvokeLlm(Prompt(Context(results), question))])[..|s.calls|] == s.calls;
      }
    }
  }

  /** A successful answer is the model's reply to the prompt built from the
      search results, with one source per result in ranked order. */
  lemma QuerySuccess(s: State, question: string, env: Retrieval)
    ensures var (s', r) := Query(s, question, env);
            r.Success? ==>
              && !Blank(question)
              && env.search(s.store, question, SearchK).Success?
              && var results := env.search(s.store, question, SearchK).value;
                 && s'.calls == s.calls + [SimilaritySearch(question, SearchK), InvokeLlm(Prompt(Context(results), question))]
                 && env.invoke(Prompt(Context(results), question)) == Success(r.value.answer)
                 && |r.value.sources| == |results|
                 && forall i :: 0 <= i < |results| ==> r.value.sources[i] == Get(results[i].metadata, "source")
  {
  }

  /** A non-blank question whose search and model call both succeed is
      answered with the model's text and one source per result, after exactly
      the search and the model call. */
  lemma QueryAnswered(s: State, question: string, env: Retrieval, results: seq<Passage>, text: string)
    requires !Blank(question)
    requires env.search(s.store, question, SearchK) == Success(results)
    requires env.invoke(Prompt(Context(results), question)) == Success(text)
    ensures Query(s, question, env)
            == (s.(calls := s.calls + [SimilaritySearch(question, SearchK)] + [InvokeLlm(Prompt(Context(results), question))]),
                Success(Answer(text, Sources(results))))
  {
  }

  /** A failed search ends the query with the 500 `"Query failed: " + message`;
      the model is not called. */
  lemma QuerySearchFails(s: State, question: string, env: Retrieval, reason: string)
    requires !Blank(question)
    requires env.search(s.store, question, SearchK) == Failure(reason)
    ensures Query(s, question, env)
            == (s.(calls := s.calls + [SimilaritySearch(question, SearchK)]),
                Failure(HttpException(500, "Query failed: " + reason)))
  {
  }

  /** A failed model call ends the query with the 500 `"Query failed: " + message`. */
  lemma QueryLlmFails(s: State, question: string, env: Retrieval, results: seq<Passage>, reason: string)
    requires !Blank(question)
    requires env.search(s.store, question, SearchK) == Success(results)
    requires env.invoke(Prompt(Context(results), question)) == Failure(reason)
    ensures Query(s, question, env)
            == (s.(calls := s.calls + [SimilaritySearch(question, SearchK)] + [InvokeLlm(Prompt(Context(results), question))]),
                Failure(HttpException(500, "Query failed: " + reason)))
  {
  }

  /** The context holds the retrieved texts in ranked order: the `i`-th text
      at its offset, a blank line after each text but the last. */
  lemma ContextLayout(results: seq<Passage>, i: nat)
    requires i < |results|
    ensures var o := Offset(ContextSeparator, Contents(results), i);
            var c := Context(results);
            && o + |results[i].content| <= |c|
            && (i + 1 < |results| ==> Offset(ContextSeparator, Contents(results), i + 1) <= |c|)
            && c[o..o + |results[i].content|] == results[i].content
            && (i + 1 < |results| ==> c[o + |results[i].content|..Offset(ContextSeparator, Contents(results), i + 1)] == ContextSeparator)
            && (i + 1 == |results| ==> |c| == o + |results[i].content|)
  {
    JoinLayout(ContextSeparator, Contents(results), i);
  }

  /** The prompt holds the context and the question verbatim, at fixed positions. */
  lemma PromptQuotes(context: string, question: string)
    ensures var p := Prompt(context, question);
            && |p| == |PromptHead| + |context| + |PromptMiddle| + |question| + |PromptTail|
            && p[..|PromptHead|] == PromptHead
            && p[|PromptHead|..|PromptHead| + |context|] == context
            && p[|PromptHead| + |context|..|PromptHead| + |context| + |PromptMiddle|] == PromptMiddle
            && p[|PromptHead| + |context| + |PromptMiddle|..|p| - |PromptTail|] == question
            && p[|p| - |PromptTail|..] == PromptTail
  {
  }

  /** With an honest search, an answer has at most four sources and each is the
      source of some stored chunk. */
  lemma SourcesFromStore(s: State, question: string, env: Retrieval)
    requires SearchHonest(env.search)
    ensures var r := Query(s, question, env).1;
            r.Success? ==>
              && |r.value.sources| <= SearchK
              && forall i :: 0 <= i < |r.value.sources| ==>
                   exists j :: 0 <= j < |s.store| && r.value.sources[i] == Get(s.store[j].metadata, "source")
  {
    var r := Query(s, question, env).1;
    if r.Success? {
      var results := env.search(s.store, question, SearchK).value;
      forall i | 0 <= i < |r.value.sources|
        ensures exists j :: 0 <= j < |s.store| && r.value.sources[i] == Get(s.store[j].metadata, "source")
      {
        assert results[i] in multiset(results);
        assert results[i] in s.store;
        var j :| 0 <= j < |s.store| && s.store[j] == results[i];
      }
    }
  }

  /** Against an empty store the prompt still goes out, with an empty context,
      and a successful answer lists no sources. */
  lemma EmptyStoreQuery(s: State, question: string, env: Retrieval)
    requires SearchHonest(env.search)
    requires s.store == []
    ensures var (s', r) := Query(s, question, env);
            && (!Blank(question) && env.search(s.store, question, SearchK).Success? ==>
                  s'.calls[|s.calls| + 1] == InvokeLlm(Prompt("", question)))
            && (r.Success? ==> r.value.sources == [])
  {
    var results := env.search(s.store, question, SearchK);
    if results.Success? {
      assert |multiset(results.value)| == 0;
      assert results.value == [];
    }
  }

  // ----------------------------------------------------------------- clear

  /** A successful clear empties the registry, the store and the upload
      directory, so the document listing is empty. */
  lemma ClearSuccess(s: State)
    ensures var (s', r) := ClearDocuments(s, NoFault);
            && r == Success("Documents cleared successfully")
            && s'.registry == map[] && s'.store == [] && s'.uploads == {}
            && Inv(s') && Listing(s') == []
            && s'.calls == s.calls + [DeleteCollection, OpenCollection("documents"), RemoveTree("docs"), MakeDir("docs")]
  {
  }

  /** Each stage that can fail ends the request there with a 500 carrying its
      message: the calls up to and including the failing one are logged, and
      exactly the work of the earlier stages is done. */
  lemma ClearStages(s: State, reason: string)
    ensures ClearDocuments(s, FailsAt(DeleteCollectionStage, reason))
            == (s.(calls := s.calls + [DeleteCollection]),
                Failure(HttpException(500, reason)))
    ensures ClearDocuments(s, FailsAt(ReopenStage, reason))
            == (s.(store := [], calls := s.calls + [DeleteCollection, OpenCollection("documents")]),
                Failure(HttpException(500, reason)))
    ensures ClearDocuments(s, FailsAt(RemoveUploadsStage, reason))
            == (s.(registry := map[], order := [], store := [],
                   calls := s.calls + [DeleteCollection, OpenCollection("documents"), RemoveTree("docs")]),
                Failure(HttpException(500, reason)))
    ensures ClearDocuments(s, FailsAt(MakeUploadsStage, reason))
            == (s.(registry := map[], order := [], store := [], uploads := {},
                   calls := s.calls + [DeleteCollection, OpenCollection("documents"), RemoveTree("docs"), MakeDir("docs")]),
                Failure(HttpException(500, reason)))
  {
    var d, o, r, m := DeleteCollection, OpenCollection("documents"), RemoveTree("docs"), MakeDir("docs");
    assert s.calls + [d] + [o] == s.calls + [d, o];
    assert s.calls + [d] + [o] + [r] == s.calls + [d, o, r];
    assert s.calls + [d] + [o] + [r] + [m] == s.calls + [d, o, r, m];
  }

  lemma ClearPreservesInv(s: State, fault: ClearFault)
    requires Inv(s)
    ensures Inv(ClearDocuments(s, fault).0)
  {
  }

  /** After a successful clear, a query finds nothing: an answer has no sources. */
  lemma ClearThenQuery(s: State, question: string, env: Retrieval)
    requires SearchHonest(env.search)
    ensures var s' := ClearDocuments(s, NoFault).0;
            var r := Query(s', question, env).1;
            r.Success? ==> r.value.sources == []
  {
    EmptyStoreQuery(ClearDocuments(s, NoFault).0, question, env);
  }
}
