/** `src/controllers/ImageUploadController.php`: multi-file image upload for a
    product, and image delete / set-primary / list. */
module ImageUploadController {
  import opened Wrappers
  import opened Text
  import opened AuthConfig
  import E = EquipmentModel
  import P = ProductImageModel
  import Uploads
  import Seqs

  const MaxFileSize: int := 5 * 1024 * 1024
  const AllowedTypes: seq<string> := ["image/jpeg", "image/png", "image/webp"]
  const AllowedExtensions: seq<string> := ["jpg", "jpeg", "png", "webp"]

  /** One entry of `$_FILES` after normalisation. */
  datatype UploadedFile = UploadedFile(name: string, clientType: string, tmpName: string, error: int, size: int)

  /** `$_FILES['images']` as PHP builds it: parallel per-field arrays for
      `images[]`, or one file's fields. */
  datatype FilesField =
    | Multiple(names: seq<string>, types: seq<string>, tmpNames: seq<string>, errors: seq<int>, sizes: seq<int>)
    | Single(file: UploadedFile)

  /** PHP fills the parallel arrays of a multi-file field to the same length. */
  predicate WellFormed(f: FilesField) {
    f.Multiple? ==>
      |f.types| == |f.names| && |f.tmpNames| == |f.names| && |f.errors| == |f.names| && |f.sizes| == |f.names|
  }

  /** How many files the field carries. */
  function FileCount(f: FilesField): nat {
    if f.Multiple? then |f.names| else 1
  }

  /** What the environment does with one file: the MIME type `finfo` reports, the
      generated name stem (`date('Ymd_His') . '_' . bin2hex(random_bytes(8))`),
      whether `move_uploaded_file` succeeds, and the message of the `PDOException`
      the insert throws, if it does. */
  datatype FileEnv = FileEnv(mime: string, stem: string, moved: bool, insertError: Option<string>)

  /** `getUploadErrorMessage`. */
  function UploadErrorMessage(code: int): (m: string)
    ensures m == "Unknown upload error" <==> code !in {1, 2, 3, 4, 6, 7, 8}
  {
    match code
    case 1 => "File exceeds upload_max_filesize"
    case 2 => "File exceeds MAX_FILE_SIZE"
    case 3 => "File was only partially uploaded"
    case 4 => "No file was uploaded"
    case 6 => "Missing temporary folder"
    case 7 => "Failed to write file to disk"
    case 8 => "Upload stopped by extension"
    case _ => "Unknown upload error"
  }

  /** What follows the last '.', or nothing when there is no '.'. */
  function DotSuffix(s: string): (r: string)
    ensures '.' !in r
    ensures '.' !in s ==> r == ""
  {
    if s == [] then []
    else if s[|s| - 1] == '.' then []
    else if '.' !in s[..|s| - 1] then []
    else DotSuffix(s[..|s| - 1]) + [s[|s| - 1]]
  }

  /** `strtolower(pathinfo($name, PATHINFO_EXTENSION))`. */
  function ExtensionOf(name: string): (e: string)
    ensures '.' !in e
  {
    AsciiLower(DotSuffix(Uploads.Basename(name)))
  }

  /** The checks of `processUpload` before anything is written, in order; the first
      failure is the file's error. */
  function FileCheck(f: UploadedFile, mime: string): (e: Option<string>)
    ensures e.None? <==> f.error == 0 && f.size <= MaxFileSize && mime in AllowedTypes && ExtensionOf(f.name) in AllowedExtensions
    ensures f.error != 0 ==> e == Some("Upload error: " + UploadErrorMessage(f.error))
    ensures f.error == 0 && f.size > MaxFileSize ==> e == Some("File too large. Maximum size: 5MB")
    ensures f.error == 0 && f.size <= MaxFileSize && mime !in AllowedTypes ==>
              e == Some("Invalid file type. Allowed: JPG, PNG, WebP")
  {
    if f.error != 0 then Some("Upload error: " + UploadErrorMessage(f.error))
    else if f.size > MaxFileSize then Some("File too large. Maximum size: 5MB")
    else if mime !in AllowedTypes then Some("Invalid file type. Allowed: JPG, PNG, WebP")
    else if ExtensionOf(f.name) !in AllowedExtensions then
      Some("Invalid file extension. Allowed: " + Join(", ", AllowedExtensions))
    else None
  }

  /** A file of exactly 5 MiB is not too large; one byte more is. */
  lemma SizeLimitIsInclusive(f: UploadedFile, mime: string)
    requires f.error == 0 && mime in AllowedTypes && ExtensionOf(f.name) in AllowedExtensions
    ensures f.size == 5242880 ==> FileCheck(f, mime).None?
    ensures f.size == 5242881 ==> FileCheck(f, mime) == Some("File too large. Maximum size: 5MB")
  {
  }

  /** The whole fate of one file: its check error, the move failure, the insert
      failure, or `None` for a stored image. */
  function FileOutcome(f: UploadedFile, env: FileEnv): Option<string> {
    if FileCheck(f, env.mime).Some? then FileCheck(f, env.mime)
    else if !env.moved then Some("Failed to save uploaded file.")
    else if env.insertError.Some? then Some("Database error: " + env.insertError.value)
    else None
  }

  /** The outcome of every file of a batch, in file order; `env(k)` is what the
      environment does with file `k`. */
  function Outcomes(files: seq<UploadedFile>, env: nat -> FileEnv): (r: seq<Option<string>>)
    ensures |r| == |files|
  {
    if files == [] then []
    else
      var k := |files| - 1;
      Outcomes(files[..k], env) + [FileOutcome(files[k], env(k))]
  }

  /** Entry `k` of the outcomes is the fate of file `k`. */
  lemma {:induction false} OutcomeAt(files: seq<UploadedFile>, env: nat -> FileEnv, k: nat)
    requires k < |files|
    ensures Outcomes(files, env)[k] == FileOutcome(files[k], env(k))
  {
    if k < |files| - 1 {
      OutcomeAt(files[..|files| - 1], env, k);
      assert files[..|files| - 1][k] == files[k];
    }
  }

  /** The messages of the failed outcomes, in order. */
  function Messages(outs: seq<Option<string>>): (errs: seq<string>)
    ensures |errs| <= |outs|
    ensures errs == [] <==> forall i :: 0 <= i < |outs| ==> outs[i].None?
    ensures |errs| == |outs| <==> forall i :: 0 <= i < |outs| ==> outs[i].Some?
  {
    if outs == [] then []
    else
      var k := |outs| - 1;
      Messages(outs[..k]) + (if outs[k].Some? then [outs[k].value] else [])
  }

  /** The errors of a batch, in file order. */
  function BatchErrors(files: seq<UploadedFile>, env: nat -> FileEnv): (errs: seq<string>)
    ensures |errs| <= |files|
    ensures errs == [] <==> forall k :: 0 <= k < |files| ==> FileOutcome(files[k], env(k)).None?
  {
    forall k | 0 <= k < |files| ensures Outcomes(files, env)[k] == FileOutcome(files[k], env(k)) {
      OutcomeAt(files, env, k);
    }
    Messages(Outcomes(files, env))
  }

  /** Record `i` of a multi-file field: the `i`-th entry of each parallel array. */
  function FieldRecord(f: FilesField, i: nat): UploadedFile
    requires f.Multiple? && WellFormed(f) && i < |f.names|
  {
    UploadedFile(f.names[i], f.types[i], f.tmpNames[i], f.errors[i], f.sizes[i])
  }

  /** The first `n` records of a multi-file field. */
  function Records(f: FilesField, n: nat): (r: seq<UploadedFile>)
    requires f.Multiple? && WellFormed(f) && n <= |f.names|
    ensures |r| == n && forall i :: 0 <= i < n ==> r[i] == FieldRecord(f, i)
  {
    if n == 0 then [] else Records(f, n - 1) + [FieldRecord(f, n - 1)]
  }

  /** The list `normalizeFilesArray` builds: one record per index of the parallel
      arrays, in order, or the single file as a one-element list. */
  function Normalized(f: FilesField): (r: seq<UploadedFile>)
    requires WellFormed(f)
    ensures |r| == FileCount(f)
    ensures f.Single? ==> r == [f.file]
    ensures f.Multiple? ==> forall i :: 0 <= i < |r| ==> r[i] == FieldRecord(f, i)
  {
    if f.Single? then [f.file] else Records(f, |f.names|)
  }

  /** `normalizeFilesArray`, with its `for` loop over the indexes. */
  method NormalizeFilesArray(files: FilesField) returns (normalized: seq<UploadedFile>)
    requires WellFormed(files)
    ensures normalized == Normalized(files)
  {
    normalized := [];
    if files.Multiple? {
      var count := |files.names|;
      for i := 0 to count
        invariant normalized == Records(files, i)
      {
        normalized := normalized + [UploadedFile(files.names[i], files.types[i], files.tmpNames[i], files.errors[i], files.sizes[i])];
      }
    } else {
      normalized := [files.file];
    }
  }

  /** The path an accepted file is stored under. */
  function StoredPath(f: UploadedFile, env: FileEnv): string {
    Uploads.UploadDir + env.stem + "." + ExtensionOf(f.name)
  }

  /** What `processUpload` returns for a stored image. */
  function UploadJson(id: int, path: string, isPrimary: bool): Json {
    JObject(map["id" := JInt(id), "path" := JStr(path), "is_primary" := JBool(isPrimary)])
  }

  /** `processUpload`. A refused INSERT of a primary image leaves the product's
      flags cleared, because `create` clears them first. */
  method ProcessUpload(f: UploadedFile, env: FileEnv, productId: int, isPrimary: bool, images: P.ImageTable, store: Uploads.FileStore)
    returns (result: Result<Json, string>)
    requires images.Valid()
    modifies images, store
    ensures images.Valid()
    ensures result.Failure? <==> FileOutcome(f, env).Some?
    ensures result.Failure? ==> result.error == FileOutcome(f, env).value && images.nextId == old(images.nextId)
    ensures FileCheck(f, env.mime).Some? || !env.moved ==>
              images.rows == old(images.rows) && store.files == old(store.files)
    ensures FileCheck(f, env.mime).None? && env.moved && env.insertError.Some? ==>
              && store.files == old(store.files) - {StoredPath(f, env)}
              && images.rows == (if isPrimary then P.ClearPrimary(old(images.rows), productId) else old(images.rows))
    ensures result.Success? ==>
              && images.rows == P.Created(old(images.rows), productId, StoredPath(f, env), isPrimary, old(images.nextId))
              && images.nextId == old(images.nextId) + 1
              && store.files == old(store.files) + {StoredPath(f, env)}
              && result.value == UploadJson(old(images.nextId), StoredPath(f, env), isPrimary)
  {
    var check := FileCheck(f, env.mime);
    if check.Some? {
      return Failure(check.value);
    }
    var destination := StoredPath(f, env);
    if !env.moved {
      return Failure("Failed to save uploaded file.");
    }
    store.Put(destination);
    var imageId := images.Create(productId, destination, isPrimary, env.insertError.Some?);
    if imageId.None? {
      store.RemoveIfExists(destination);
      return Failure("Database error: " + env.insertError.value);
    }
    result := Success(UploadJson(imageId.value, destination, isPrimary));
  }

  /** Where the batch stands: the image rows and the next id, the files in the
      uploads directory, and what `$uploadedImages` and `$errors` hold. */
  datatype Batch = Batch(rows: seq<P.Image>, nextId: int, stored: set<string>, uploaded: seq<Json>, errors: seq<string>)

  /** One call of `processUpload` on the batch, as a function of where it stands. */
  function Step(b: Batch, f: UploadedFile, env: FileEnv, productId: int, primaryHere: bool): Batch {
    var path := StoredPath(f, env);
    if FileCheck(f, env.mime).Some? then b.(errors := b.errors + [FileCheck(f, env.mime).value])
    else if !env.moved then b.(errors := b.errors + ["Failed to save uploaded file."])
    else if env.insertError.Some? then
      b.(rows := if primaryHere then P.ClearPrimary(b.rows, productId) else b.rows,
         stored := b.stored - {path},
         errors := b.errors + ["Database error: " + env.insertError.value])
    else
      Batch(P.Created(b.rows, productId, path, primaryHere, b.nextId), b.nextId + 1, b.stored + {path},
            b.uploaded + [UploadJson(b.nextId, path, primaryHere)], b.errors)
  }

  /** The `foreach` of `upload` as a fold over the files: file `k` goes through
      `processUpload` with `env(k)`, and may be primary only when `k` is 0. */
  function Run(start: Batch, files: seq<UploadedFile>, env: nat -> FileEnv, productId: int, isPrimary: bool): Batch
    decreases |files|
  {
    if files == [] then start
    else
      var k := |files| - 1;
      Step(Run(start, files[..k], env, productId, isPrimary), files[k], env(k), productId, isPrimary && k == 0)
  }

  /** Running one more file is one more step. */
  lemma RunSnoc(start: Batch, files: seq<UploadedFile>, env: nat -> FileEnv, productId: int, isPrimary: bool, i: nat)
    requires i < |files|
    ensures Run(start, files[..i + 1], env, productId, isPrimary)
         == Step(Run(start, files[..i], env, productId, isPrimary), files[i], env(i), productId, isPrimary && i == 0)
  {
    assert files[..i + 1][..i] == files[..i];
  }

  /** One step adds the file's failure message, if it has one, to the errors, and
      either one image or one error. */
  lemma StepEffect(b: Batch, f: UploadedFile, env: FileEnv, productId: int, primaryHere: bool)
    ensures var s := Step(b, f, env, productId, primaryHere);
      && s.errors == b.errors + (if FileOutcome(f, env).Some? then [FileOutcome(f, env).value] else [])
      && (FileOutcome(f, env).Some? ==> s.uploaded == b.uploaded && s.nextId == b.nextId && |s.rows| == |b.rows|)
      && (FileOutcome(f, env).None? ==> |s.uploaded| == |b.uploaded| + 1 && s.nextId == b.nextId + 1 && |s.rows| == |b.rows| + 1)
  {
  }

  /** One more file adds its failure message, if any, to the batch errors. */
  lemma BatchErrorsSnoc(files: seq<UploadedFile>, env: nat -> FileEnv)
    requires files != []
    ensures var k := |files| - 1;
      BatchErrors(files, env)
        == BatchErrors(files[..k], env) + (if FileOutcome(files[k], env(k)).Some? then [FileOutcome(files[k], env(k)).value] else [])
  {
    var k := |files| - 1;
    var outs := Outcomes(files, env);
    assert outs[..k] == Outcomes(files[..k], env);
    assert outs[k] == FileOutcome(files[k], env(k));
  }

  /** The batch's errors are the messages of the failed files, in file order. */
  lemma {:induction false} RunErrors(start: Batch, files: seq<UploadedFile>, env: nat -> FileEnv, productId: int, isPrimary: bool)
    ensures Run(start, files, env, productId, isPrimary).errors == start.errors + BatchErrors(files, env)
    decreases |files|
  {
    if files != [] {
      var k := |files| - 1;
      var prefix := files[..k];
      RunErrors(start, prefix, env, productId, isPrimary);
      StepEffect(Run(start, prefix, env, productId, isPrimary), files[k], env(k), productId, isPrimary && k == 0);
      BatchErrorsSnoc(files, env);
    }
  }

  /** Every file ends up either uploaded or failed; each upload adds one row and
      takes one id. */
  lemma {:induction false} RunCounts(start: Batch, files: seq<UploadedFile>, env: nat -> FileEnv, productId: int, isPrimary: bool)
    ensures var b := Run(start, files, env, productId, isPrimary);
      && |b.uploaded| >= |start.uploaded| && |b.errors| >= |start.errors|
      && (|b.uploaded| - |start.uploaded|) + (|b.errors| - |start.errors|) == |files|
      && |b.rows| == |start.rows| + (|b.uploaded| - |start.uploaded|)
      && b.nextId == start.nextId + (|b.uploaded| - |start.uploaded|)
    decreases |files|
  {
    if files != [] {
      var k := |files| - 1;
      RunCounts(start, files[..k], env, productId, isPrimary);
      StepEffect(Run(start, files[..k], env, productId, isPrimary), files[k], env(k), productId, isPrimary && k == 0);
    }
  }

  /** A primary row after clearing a product's flags was already there. */
  lemma ClearedPrimaryWasThere(rows: seq<P.Image>, productId: int, x: P.Image)
    requires x in P.ClearPrimary(rows, productId) && x.isPrimary
    ensures x in rows
  {
    var c := P.ClearPrimary(rows, productId);
    var k :| 0 <= k < |c| && c[k] == x;
    assert c[k] == rows[k];
  }

  /** A primary row that one step adds is the stored image of a file that was
      allowed to be primary. */
  lemma StepPrimaries(b: Batch, f: UploadedFile, env: FileEnv, productId: int, primaryHere: bool, x: P.Image)
    requires x in Step(b, f, env, productId, primaryHere).rows && x.isPrimary && x !in b.rows
    ensures primaryHere && FileOutcome(f, env).None? && x == P.Image(b.nextId, productId, StoredPath(f, env), true)
  {
    var path := StoredPath(f, env);
    if FileCheck(f, env.mime).None? && env.moved {
      var cleared := if primaryHere then P.ClearPrimary(b.rows, productId) else b.rows;
      if primaryHere && x in cleared {
        ClearedPrimaryWasThere(b.rows, productId, x);
      }
      if env.insertError.None? {
        assert P.Created(b.rows, productId, path, primaryHere, b.nextId) == cleared + [P.Image(b.nextId, productId, path, primaryHere)];
      }
    }
  }

  /** Only file 0 may add a primary image: a primary row the batch added is file
      0's stored image, and exists only when `is_primary` was asked for and file 0
      was stored. */
  lemma {:induction false} RunOnlyFirstPrimary(start: Batch, files: seq<UploadedFile>, env: nat -> FileEnv, productId: int,
                                               isPrimary: bool, x: P.Image)
    requires x in Run(start, files, env, productId, isPrimary).rows && x.isPrimary && x !in start.rows
    ensures isPrimary && files != [] && FileOutcome(files[0], env(0)).None?
    ensures x == P.Image(start.nextId, productId, StoredPath(files[0], env(0)), true)
    decreases |files|
  {
    var k := |files| - 1;
    var before := Run(start, files[..k], env, productId, isPrimary);
    if k == 0 {
      assert before == start;
      StepPrimaries(start, files[0], env(0), productId, isPrimary, x);
    } else if x in before.rows {
      RunOnlyFirstPrimary(start, files[..k], env, productId, isPrimary, x);
      assert files[..k][0] == files[0];
    } else {
      StepPrimaries(before, files[k], env(k), productId, false, x);
    }
  }

  /** One pass of the `foreach`: `processUpload` for one file, collected into the
      uploaded images or the errors. */
  method UploadOne(f: UploadedFile, env: FileEnv, productId: int, primaryHere: bool,
                   images: P.ImageTable, store: Uploads.FileStore, uploaded: seq<Json>, errors: seq<string>)
    returns (uploaded': seq<Json>, errors': seq<string>)
    requires images.Valid()
    modifies images, store
    ensures images.Valid()
    ensures Batch(images.rows, images.nextId, store.files, uploaded', errors')
         == Step(Batch(old(images.rows), old(images.nextId), old(store.files), uploaded, errors), f, env, productId, primaryHere)
  {
    var result := ProcessUpload(f, env, productId, primaryHere, images, store);
    if result.Failure? {
      uploaded', errors' := uploaded, errors + [result.error];
    } else {
      uploaded', errors' := uploaded + [result.value], errors;
    }
  }

  /** The `foreach` of `upload`: every file goes through `processUpload` in order,
      and only file 0 may be primary. */
  method ProcessBatch(files: seq<UploadedFile>, env: nat -> FileEnv, productId: int, isPrimary: bool,
                      images: P.ImageTable, store: Uploads.FileStore)
    returns (uploaded: seq<Json>, errors: seq<string>)
    requires images.Valid()
    modifies images, store
    ensures images.Valid()
    ensures Batch(images.rows, images.nextId, store.files, uploaded, errors)
         == Run(Batch(old(images.rows), old(images.nextId), old(store.files), [], []), files, env, productId, isPrimary)
  {
    uploaded := [];
    errors := [];
    ghost var start := Batch(images.rows, images.nextId, store.files, [], []);
    for i := 0 to |files|
      invariant images.Valid()
      invariant Batch(images.rows, images.nextId, store.files, uploaded, errors) == Run(start, files[..i], env, productId, isPrimary)
    {
      RunSnoc(start, files, env, productId, isPrimary, i);
      uploaded, errors := UploadOne(files[i], env(i), productId, isPrimary && i == 0, images, store, uploaded, errors);
    }
    assert files[..|files|] == files;
  }

  function Warnings(errors: seq<string>): (r: seq<Json>)
    ensures |r| == |errors| && forall i :: 0 <= i < |errors| ==> r[i] == JStr(errors[i])
  {
    if errors == [] then [] else [JStr(errors[0])] + Warnings(errors[1..])
  }

  /** How `upload` answers for a batch: 400 when every file failed, else 201 with
      the stored images and, when some failed, their errors as `warnings`. */
  function BatchResponse(uploaded: seq<Json>, errors: seq<string>): (r: Response)
    ensures errors != [] && uploaded == [] ==> r == ErrorResponse(400, "All uploads failed: " + Join("; ", errors))
    ensures !(errors != [] && uploaded == []) ==>
              && r.status == 201
              && "message" in r.body && r.body["message"] == JStr(NatToString(|uploaded|) + " image(s) uploaded successfully.")
              && "data" in r.body && r.body["data"] == JList(uploaded)
              && ("warnings" in r.body <==> errors != [])
              && (errors != [] ==> r.body["warnings"] == JList(Warnings(errors)))
  {
    if errors != [] && uploaded == [] then ErrorResponse(400, "All uploads failed: " + Join("; ", errors))
    else
      var body := map["message" := JStr(NatToString(|uploaded|) + " image(s) uploaded successfully."), "data" := JList(uploaded)];
      Response(201, if errors != [] then body["warnings" := JList(Warnings(errors))] else body)
  }

  /** The guards of `upload`, in order: admin, a positive `product_id`, a known
      product, some files. */
  function UploadCheck(caller: Caller, productId: Option<int>, rows: seq<E.Equipment>, files: Option<FilesField>): (d: Option<Response>)
    ensures caller.adminGate.Some? ==> d == caller.adminGate
    ensures caller.adminGate.None? && (productId.None? || productId.value <= 0) ==>
              d == Some(ErrorResponse(400, "product_id is required and must be a positive integer."))
    ensures caller.adminGate.None? && productId.Some? && productId.value > 0 && E.FindById(rows, productId.value).None? ==>
              d == Some(ErrorResponse(404, "Product not found."))
    ensures caller.adminGate.None? && productId.Some? && productId.value > 0 && E.FindById(rows, productId.value).Some? && files.None? ==>
              d == Some(ErrorResponse(400, "No images uploaded."))
    ensures d.None? <==> caller.adminGate.None? && productId.Some? && productId.value > 0
                         && E.FindById(rows, productId.value).Some? && files.Some?
  {
    if caller.adminGate.Some? then caller.adminGate
    else if productId.None? || productId.value <= 0 then Some(ErrorResponse(400, "product_id is required and must be a positive integer."))
    else if E.FindById(rows, productId.value).None? then Some(ErrorResponse(404, "Product not found."))
    else if files.None? then Some(ErrorResponse(400, "No images uploaded."))
    else None
  }

  /** `upload`. `productId` is `(int) $_POST['product_id']` when sent, `isPrimaryField`
      is `$_POST['is_primary']`, `files` is `$_FILES['images']` (`None` when it is
      empty), and `env(i)` is what happens to the i-th file. After the guards, the
      tables, the uploads directory and the answer are those of the batch run over
      the normalised files. */
  method Upload(caller: Caller, productId: Option<int>, isPrimaryField: Option<string>, files: Option<FilesField>,
                env: nat -> FileEnv, equipment: E.EquipmentTable, images: P.ImageTable, store: Uploads.FileStore)
    returns (r: Response)
    requires images.Valid()
    requires files.Some? ==> WellFormed(files.value)
    modifies images, store
    ensures images.Valid()
    ensures UploadCheck(caller, productId, equipment.rows, files).Some? ==>
              r == UploadCheck(caller, productId, equipment.rows, files).value && unchanged(images, store)
    ensures UploadCheck(caller, productId, equipment.rows, files).None? ==>
              var b := Run(Batch(old(images.rows), old(images.nextId), old(store.files), [], []),
                           Normalized(files.value), env, productId.value, isPrimaryField == Some("true"));
              && images.rows == b.rows && images.nextId == b.nextId && store.files == b.stored
              && b.errors == BatchErrors(Normalized(files.value), env)
              && r == BatchResponse(b.uploaded, BatchErrors(Normalized(files.value), env))
  {
    var check := UploadCheck(caller, productId, equipment.rows, files);
    if check.Some? {
      return check.value;
    }
    var normalized := NormalizeFilesArray(files.value);
    var isPrimary := isPrimaryField == Some("true");
    ghost var start := Batch(images.rows, images.nextId, store.files, [], []);
    var uploaded, errors := ProcessBatch(normalized, env, productId.value, isPrimary, images, store);
    RunErrors(start, normalized, env, productId.value, isPrimary);
    r := BatchResponse(uploaded, errors);
  }

  /** `delete`: 404 when no row was removed; otherwise the file with the row's base
      name is removed from the uploads directory. */
  method Delete(caller: Caller, id: int, images: P.ImageTable, store: Uploads.FileStore) returns (r: Response)
    requires images.Valid()
    modifies images, store
    ensures images.Valid()
    ensures caller.adminGate.Some? ==> r == caller.adminGate.value && unchanged(images, store)
    ensures caller.adminGate.None? && P.FindById(old(images.rows), id).None? ==>
              r == ErrorResponse(404, "Image not found.") && unchanged(store)
              && images.rows == old(images.rows)
    ensures caller.adminGate.None? && P.FindById(old(images.rows), id).Some? ==>
              && r == Response(200, map["message" := JStr("Image deleted successfully.")])
              && store.files == old(store.files) - {Uploads.UploadDir + Uploads.Basename(P.FindById(old(images.rows), id).value.path)}
              && images.rows == P.WithoutImage(old(images.rows), id)
  {
    if caller.adminGate.Some? {
      return caller.adminGate.value;
    }
    var imagePath := images.Delete(id);
    if imagePath.None? {
      return ErrorResponse(404, "Image not found.");
    }
    store.RemoveIfExists(Uploads.UploadDir + Uploads.Basename(imagePath.value));
    r := Response(200, map["message" := JStr("Image deleted successfully.")]);
  }

  /** `setPrimary`. */
  method SetPrimary(caller: Caller, id: int, images: P.ImageTable) returns (r: Response)
    requires images.Valid()
    modifies images
    ensures images.Valid()
    ensures caller.adminGate.Some? ==> r == caller.adminGate.value && unchanged(images)
    ensures caller.adminGate.None? && P.FindById(old(images.rows), id).None? ==>
              r == ErrorResponse(404, "Image not found.") && images.rows == old(images.rows)
    ensures caller.adminGate.None? && P.FindById(old(images.rows), id).Some? ==>
              r == Response(200, map["message" := JStr("Image set as primary.")])
              && images.rows == P.PrimarySet(old(images.rows), P.FindById(old(images.rows), id).value)
  {
    if caller.adminGate.Some? {
      return caller.adminGate.value;
    }
    var ok := images.SetPrimary(id);
    if !ok {
      return ErrorResponse(404, "Image not found.");
    }
    r := Response(200, map["message" := JStr("Image set as primary.")]);
  }

  /** `getByProduct`. */
  method GetByProduct(caller: Caller, productId: int, images: P.ImageTable) returns (r: Response)
    ensures NoUser(caller.session) ==> r == ErrorResponse(401, UnauthorisedMessage)
    ensures !NoUser(caller.session) ==>
      r == Response(200, map["data" := JList(P.ListToJson(P.FindByProductId(images.rows, productId))),
                             "count" := JInt(P.CountByProductId(images.rows, productId))])
  {
    var gate := RequireAuth(caller.session);
    if gate.Some? {
      return gate.value;
    }
    var found := P.FindByProductId(images.rows, productId);
    P.FindByProductIdCount(images.rows, productId);
    r := Response(200, map["data" := JList(P.ListToJson(found)), "count" := JInt(|found|)]);
  }
}
