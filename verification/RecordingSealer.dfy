/**
 Sealing of session recordings at rest, and playback.

 What goes wrong is an input: a crash may strike after any step of the sealer, any call may
 fail, and a read may return any number of bytes. What a crash leaves behind is exactly the
 state at that point: in-memory values are lost, files and rows stay.
 */
module RecordingSealer {
  import opened Common
  import opened Listing

  /** A unit of file content: a recorded byte, or one encrypted frame (opaque to readers
      without its key). A frame remembers the master key and recording it was derived for. */
  datatype Sym = Byte(b: int) | Frame(keyId: int, master: int, scope: Path, body: seq<Sym>)

  type Image = seq<Sym>

  /** Parent directory and base name; the per-recording key is derived from both. */
  datatype Path = Path(dir: string, base: string)

  /** An ideal (collision-free) digest. */
  datatype Digest = NoDigest | Sha256(of: Image)

  datatype Row = Row(path: Path, ended: bool, sealed: bool, digest: Digest, keyId: int)

  /** What the bookkeeping of a recording should reflect: its bytes, and how many runs were cut
      between the rename and the row update. */
  datatype Past = Past(bytes: seq<int>, cuts: nat)

  datatype Outcome = Crashed | Failed | Done(digest: Digest, keyId: int)

  type Files = map<Path, Image>
  type Rows = map<string, Row>
  type Pasts = map<string, Past>

  /** 1 MiB read buffer. */
  const CHUNK: nat := 0x10_0000

  /** The most rows one sweep looks at. */
  const SWEEP_LIMIT: nat := 50

  /** The temporary sibling. */
  function Tmp(path: Path): Path { Path(path.dir, path.base + ".sealing") }

  function Lift(bytes: seq<int>): Image {
    seq(|bytes|, i requires 0 <= i < |bytes| => Byte(bytes[i]))
  }

  // ---- sealed images ----

  predicate Framed(image: Image, scope: Path) {
    forall i :: 0 <= i < |image| ==> image[i].Frame? && image[i].scope == scope && image[i].body != []
  }

  /** The payloads of a framed image, in order. */
  function Peel(image: Image, scope: Path): Image
    requires Framed(image, scope)
  {
    if image == [] then [] else image[0].body + Peel(image[1..], scope)
  }

  predicate SealedUnder(image: Image, keyId: int, master: int) {
    forall i :: 0 <= i < |image| ==> image[i].Frame? && image[i].keyId == keyId && image[i].master == master
  }

  predicate SealedBy(image: Image, keyId: int) {
    forall i :: 0 <= i < |image| ==> image[i].Frame? && image[i].keyId == keyId
  }

  predicate KeysHeld(keys: map<int, int>, image: Image) {
    forall i :: 0 <= i < |image| ==>
      image[i].Frame? && image[i].keyId in keys && keys[image[i].keyId] == image[i].master
  }

  /** The image is the recording sealed k times over. */
  ghost predicate Layers(image: Image, bytes: seq<int>, k: nat, scope: Path)
    decreases k
  {
    if k == 0 then image == Lift(bytes)
    else Framed(image, scope) && Layers(Peel(image, scope), bytes, k - 1, scope)
  }

  lemma PeelEmpty(image: Image, scope: Path)
    requires Framed(image, scope)
    ensures Peel(image, scope) == [] <==> image == []
  {
    if image != [] { assert image[0].body != []; }
  }

  lemma {:induction false} LayersEmpty(image: Image, bytes: seq<int>, k: nat, scope: Path)
    requires Layers(image, bytes, k, scope)
    ensures image == [] <==> bytes == []
    decreases k
  {
    if k > 0 {
      LayersEmpty(Peel(image, scope), bytes, k - 1, scope);
      PeelEmpty(image, scope);
    }
  }

  /** Only the unsealed image of a non-empty recording is the recording. */
  lemma LayersPlain(image: Image, bytes: seq<int>, k: nat, scope: Path)
    requires Layers(image, bytes, k, scope)
    ensures image == Lift(bytes) <==> k == 0 || bytes == []
  {
    LayersEmpty(image, bytes, k, scope);
    if k > 0 && bytes != [] {
      assert image[0].Frame? && Lift(bytes)[0].Byte?;
    }
  }

  // ---- what goes wrong while one file is sealed ----

  /**
   One job's luck. The i-th read wants `sizes(i)` bytes; `crashes(i)` and `chunkFails(i)` strike
   at the i-th chunk. `left` is what an interrupted run leaves in the temporary file, unless
   the clean-up `removes` it.
   */
  datatype JobWeather = JobWeather(
    safe: bool, opens: bool, sizes: nat -> int, crashes: nat -> bool, chunkFails: nat -> bool, crashCopied: bool,
    syncs: bool, left: Image, removes: bool, crashRenamed: bool, stores: bool, crashStored: bool)
  {
    /** Nothing goes wrong. */
    ghost predicate Calm() {
      && safe && opens && (forall i :: !crashes(i) && !chunkFails(i))
      && !crashCopied && syncs && !crashRenamed && stores && !crashStored
    }
  }

  /** A read returns at least one byte, at most the buffer and what is left. */
  function ChunkSize(want: int, left: nat): (n: nat)
    requires left > 0
    ensures 1 <= n <= left && n <= CHUNK
  {
    var room := if left < CHUNK then left else CHUNK;
    if 1 <= want <= room then want else room
  }

  datatype Copy = Copied | CopyCrashed | CopyFailed

  /** How the copy loop ends, from position pos with chunk i next. */
  function CopyFate(w: JobWeather, size: nat, pos: nat, i: nat): Copy
    requires pos <= size
    decreases size - pos
  {
    if pos == size then (if w.crashCopied then CopyCrashed else Copied)
    else if w.crashes(i) then CopyCrashed
    else if w.chunkFails(i) then CopyFailed
    else CopyFate(w, size, pos + ChunkSize(w.sizes(i), size - pos), i + 1)
  }

  /** The frames written from position pos on. */
  function Frames(w: JobWeather, src: Image, scope: Path, keyId: int, master: int, pos: nat, i: nat): Image
    requires pos <= |src|
    decreases |src| - pos
  {
    if pos == |src| then [] else
    var n := ChunkSize(w.sizes(i), |src| - pos);
    [Frame(keyId, master, scope, src[pos..pos + n])] + Frames(w, src, scope, keyId, master, pos + n, i + 1)
  }

  /** The copy has come to position pos, with the given frames written. */
  ghost predicate Copying(w: JobWeather, src: Image, scope: Path, keyId: int, master: int, written: Image,
                          pos: nat, i: nat)
  {
    && pos <= |src| && CopyFate(w, |src|, pos, i) == CopyFate(w, |src|, 0, 0)
    && written + Frames(w, src, scope, keyId, master, pos, i) == Frames(w, src, scope, keyId, master, 0, 0)
  }

  lemma CopyingOn(w: JobWeather, src: Image, scope: Path, keyId: int, master: int, written: Image, pos: nat, i: nat)
    requires Copying(w, src, scope, keyId, master, written, pos, i) && pos < |src| && !w.crashes(i) && !w.chunkFails(i)
    ensures var n := ChunkSize(w.sizes(i), |src| - pos);
            Copying(w, src, scope, keyId, master, written + [Frame(keyId, master, scope, src[pos..pos + n])],
                    pos + n, i + 1)
  {
    var n := ChunkSize(w.sizes(i), |src| - pos);
    var frame := Frame(keyId, master, scope, src[pos..pos + n]);
    var rest := Frames(w, src, scope, keyId, master, pos + n, i + 1);
    assert written + ([frame] + rest) == (written + [frame]) + rest;
  }

  /** For any read sizes the frames open, in order, to the rest of the source. */
  lemma {:induction false} FramesOpen(w: JobWeather, src: Image, scope: Path, keyId: int, master: int, pos: nat, i: nat)
    requires pos <= |src|
    ensures var image := Frames(w, src, scope, keyId, master, pos, i);
            Framed(image, scope) && SealedUnder(image, keyId, master) && Peel(image, scope) == src[pos..]
    decreases |src| - pos
  {
    if pos < |src| {
      var n := ChunkSize(w.sizes(i), |src| - pos);
      FramesOpen(w, src, scope, keyId, master, pos + n, i + 1);
      var image := Frames(w, src, scope, keyId, master, pos, i);
      assert image[1..] == Frames(w, src, scope, keyId, master, pos + n, i + 1);
      assert src[pos..] == src[pos..pos + n] + src[pos + n..];
    }
  }

  lemma {:induction false} CalmCopies(w: JobWeather, size: nat, pos: nat, i: nat)
    requires w.Calm() && pos <= size
    ensures CopyFate(w, size, pos, i) == Copied
    decreases size - pos
  {
    if pos < size { CalmCopies(w, size, pos + ChunkSize(w.sizes(i), size - pos), i + 1); }
  }

  /** The sealed file replaces the original. */
  predicate Renames(w: JobWeather, size: nat, hasKey: bool) {
    hasKey && w.opens && CopyFate(w, size, 0, 0) == Copied && w.syncs
  }

  function OutcomeOf(w: JobWeather, src: Image, hasKey: bool, active: int): Outcome {
    if !hasKey || !w.opens then Failed
    else match CopyFate(w, |src|, 0, 0)
      case CopyCrashed => Crashed
      case CopyFailed => Failed
      case Copied => if !w.syncs then Failed else if w.crashRenamed then Crashed else Done(Sha256(src), active)
  }

  function Abandoned(files: Files, tmp: Path, w: JobWeather): Files {
    if w.removes then files - {tmp} else files[tmp := w.left]
  }

  /** The files after one sealing, however it ended. */
  function FilesAfter(files: Files, path: Path, keys: map<int, int>, active: int, w: JobWeather): Files
    requires path in files
  {
    if active !in keys || !w.opens then files
    else match CopyFate(w, |files[path]|, 0, 0)
      case CopyCrashed => files[Tmp(path) := w.left]
      case CopyFailed => Abandoned(files, Tmp(path), w)
      case Copied =>
        if !w.syncs then Abandoned(files, Tmp(path), w)
        else files[path := Frames(w, files[path], path, active, keys[active], 0, 0)] - {Tmp(path)}
  }

  // ---- the state, and what keeps it right ----

  datatype State = State(files: Files, rows: Rows, keys: map<int, int>, active: int, past: Pasts)

  const NoState := State(map[], map[], map[], 0, map[])

  /** The image has one layer per cut run, and one more if the row says sealed. */
  ghost predicate RecordingOk(image: Image, row: Row, past: Past) {
    && Layers(image, past.bytes, past.cuts + (if row.sealed then 1 else 0), row.path)
    && (row.sealed && past.cuts == 0 ==> row.digest == Sha256(Lift(past.bytes)) && SealedBy(image, row.keyId))
  }

  /** Two recordings keep clear of each other and of each other's temporary files. */
  predicate Apart(p: Path, q: Path) { p != q && Tmp(p) != q && Tmp(q) != p }

  ghost predicate AllApart(rows: Rows) {
    forall a, b :: a in rows && b in rows && a != b ==> Apart(rows[a].path, rows[b].path)
  }

  /** A row fits its file and its past; a live session has no complete file yet. */
  ghost predicate RowOk(files: Files, row: Row, past: Past) {
    && (!row.ended ==> !row.sealed && row.path !in files)
    && (row.path in files ==> RecordingOk(files[row.path], row, past))
  }

  ghost predicate Consistent(s: State) {
    && s.rows.Keys == s.past.Keys && AllApart(s.rows)
    && forall a :: a in s.rows ==> RowOk(s.files, s.rows[a], s.past[a])
  }

  /** The two file maps agree everywhere but on one recording and its temporary file. */
  ghost predicate OnlyTouches(before: Files, after: Files, path: Path) {
    forall p: Path {:trigger p in after} {:trigger p in before} :: p != path && p != Tmp(path) ==>
      (p in after <==> p in before) && (p in after ==> after[p] == before[p])
  }

  lemma TmpDiffers(path: Path)
    ensures Tmp(path) != path
  {
    assert |Tmp(path).base| != |path.base|;
  }

  /** Whatever happens, no other file changes. */
  lemma SealTouchesOne(files: Files, path: Path, keys: map<int, int>, active: int, w: JobWeather)
    requires path in files
    ensures OnlyTouches(files, FilesAfter(files, path, keys, active, w), path)
    ensures path in FilesAfter(files, path, keys, active, w)
    ensures !Renames(w, |files[path]|, active in keys) ==>
              FilesAfter(files, path, keys, active, w)[path] == files[path]
  {
    TmpDiffers(path);
  }

  /** Whatever happens, the file at the path stays a complete image: the one it was, or a full
      sealing of it, the latter exactly when it was renamed. */
  lemma SealKeepsWhole(files: Files, path: Path, keys: map<int, int>, active: int, w: JobWeather)
    requires path in files
    ensures var after := FilesAfter(files, path, keys, active, w);
            && OnlyTouches(files, after, path) && path in after
            && (if Renames(w, |files[path]|, active in keys)
                then && Framed(after[path], path) && Peel(after[path], path) == files[path]
                     && SealedUnder(after[path], active, keys[active]) && Tmp(path) !in after
                else after[path] == files[path])
  {
    TmpDiffers(path);
    SealTouchesOne(files, path, keys, active, w);
    if active in keys {
      FramesOpen(w, files[path], path, active, keys[active], 0, 0);
      assert files[path][0..] == files[path];
    }
  }

  // ---- one job of the sweep ----

  /** The row once the sealing is recorded on it, or else as it was. */
  function NextRow(row: Row, res: Outcome, stored: bool): Row {
    if stored && res.Done? then row.(sealed := true, digest := res.digest, keyId := res.keyId) else row
  }

  /** A rename that is not recorded is a cut. */
  function NextPast(past: Past, renamed: bool, stored: bool): Past {
    if renamed && !stored then past.(cuts := past.cuts + 1) else past
  }

  predicate Runs(s: State, id: string, w: JobWeather)
    requires id in s.rows
  {
    w.safe && s.rows[id].path in s.files
  }

  function JobOutcome(s: State, id: string, w: JobWeather): Outcome
    requires id in s.rows && Runs(s, id, w)
  {
    OutcomeOf(w, s.files[s.rows[id].path], s.active in s.keys, s.active)
  }

  predicate JobCrashes(s: State, id: string, w: JobWeather)
    requires id in s.rows
  {
    Runs(s, id, w) && (JobOutcome(s, id, w).Crashed? || (JobOutcome(s, id, w).Done? && w.crashStored))
  }

  function JobState(s: State, id: string, w: JobWeather): (s': State)
    requires id in s.rows && id in s.past
    ensures s'.rows.Keys == s.rows.Keys && s'.past.Keys == s.past.Keys
  {
    if !Runs(s, id, w) then s else
    var row, res := s.rows[id], JobOutcome(s, id, w);
    var stored := res.Done? && w.stores;
    var renamed := Renames(w, |s.files[row.path]|, s.active in s.keys);
    s.(files := FilesAfter(s.files, row.path, s.keys, s.active, w),
       rows := s.rows[id := NextRow(row, res, stored)], past := s.past[id := NextPast(s.past[id], renamed, stored)])
  }

  /** Rows only ever move from unsealed to sealed; cuts are counted, and only before that. */
  predicate Advances(row: Row, past: Past, row': Row, past': Past) {
    && row'.path == row.path && row'.ended == row.ended && past'.bytes == past.bytes && past'.cuts >= past.cuts
    && (row.sealed ==> row' == row && past' == past)
  }

  /** One recording advances, keeps its file, and keeps it as it is once sealed. */
  ghost predicate AdvancesAt(s: State, s': State, a: string)
    requires a in s.rows && a in s.past && a in s'.rows && a in s'.past
  {
    && Advances(s.rows[a], s.past[a], s'.rows[a], s'.past[a])
    && (s.rows[a].path in s'.files <==> s.rows[a].path in s.files)
    && (s.rows[a].sealed && s.rows[a].path in s.files ==> s'.files[s.rows[a].path] == s.files[s.rows[a].path])
  }

  ghost predicate AllAdvance(s: State, s': State) {
    && s'.rows.Keys == s.rows.Keys == s.past.Keys == s'.past.Keys && s'.keys == s.keys && s'.active == s.active
    && forall a :: a in s.rows ==> AdvancesAt(s, s', a)
  }

  lemma AdvanceTrans(s: State, s': State, s'': State)
    requires AllAdvance(s, s') && AllAdvance(s', s'')
    ensures AllAdvance(s, s'')
  {
    forall a | a in s.rows ensures AdvancesAt(s, s'', a) {
      assert AdvancesAt(s, s', a) && AdvancesAt(s', s'', a);
    }
  }

  /** A full sealing adds one layer, accounted for by the row or by the cut count. */
  lemma SealAddsLayer(image: Image, sealed: Image, row: Row, past: Past, keyId: int, master: int)
    requires RecordingOk(image, row, past) && !row.sealed
    requires Framed(sealed, row.path) && Peel(sealed, row.path) == image && SealedUnder(sealed, keyId, master)
    ensures RecordingOk(sealed, row, past.(cuts := past.cuts + 1))
    ensures RecordingOk(sealed, row.(sealed := true, digest := Sha256(image), keyId := keyId), past)
  {
    assert Layers(sealed, past.bytes, past.cuts + 1, row.path);
  }

  lemma OutcomeExact(w: JobWeather, src: Image, hasKey: bool, active: int)
    ensures OutcomeOf(w, src, hasKey, active).Done? <==> Renames(w, |src|, hasKey) && !w.crashRenamed
    ensures OutcomeOf(w, src, hasKey, active).Done? ==> OutcomeOf(w, src, hasKey, active) == Done(Sha256(src), active)
  {
  }

  /** The recording a job took on fits its row and its past afterwards. */
  lemma JobRecordingOk(s: State, id: string, w: JobWeather)
    requires Consistent(s) && id in DueIds(s.rows) && Runs(s, id, w)
    ensures var path, s' := s.rows[id].path, JobState(s, id, w);
            path in s'.files && RecordingOk(s'.files[path], s'.rows[id], s'.past[id])
  {
    var path, s' := s.rows[id].path, JobState(s, id, w);
    assert RowOk(s.files, s.rows[id], s.past[id]);
    SealKeepsWhole(s.files, path, s.keys, s.active, w);
    OutcomeExact(w, s.files[path], s.active in s.keys, s.active);
    if Renames(w, |s.files[path]|, s.active in s.keys) {
      SealAddsLayer(s.files[path], s'.files[path], s.rows[id], s.past[id], s.active, s.keys[s.active]);
    }
  }

  lemma JobTouchesOne(s: State, id: string, w: JobWeather)
    requires Consistent(s) && id in DueIds(s.rows) && Runs(s, id, w)
    ensures TouchesOne(s, JobState(s, id, w), id)
  {
    SealKeepsWhole(s.files, s.rows[id].path, s.keys, s.active, w);
    JobRecordingOk(s, id, w);
  }

  /** Any job keeps the state consistent and advances only its own row. */
  lemma JobKeeps(s: State, id: string, w: JobWeather)
    requires Consistent(s) && id in DueIds(s.rows)
    ensures Consistent(JobState(s, id, w)) && AllAdvance(s, JobState(s, id, w))
    ensures forall a :: a in s.rows && a != id ==> JobState(s, id, w).rows[a] == s.rows[a]
  {
    if Runs(s, id, w) {
      JobTouchesOne(s, id, w);
      OthersKept(s, JobState(s, id, w), id);
      OthersAdvance(s, JobState(s, id, w), id);
    }
  }

  /** A job cuts a recording exactly when its file was renamed and then a crash or a failed row
      update struck; a non-empty recording can then no longer be read from its path as it was. */
  lemma CutExactly(s: State, id: string, w: JobWeather)
    requires Consistent(s) && id in DueIds(s.rows)
    ensures JobState(s, id, w).past[id].cuts > s.past[id].cuts <==>
            && Runs(s, id, w) && Renames(w, |s.files[s.rows[id].path]|, s.active in s.keys)
            && (w.crashRenamed || !w.stores)
    ensures JobState(s, id, w).past[id].cuts > s.past[id].cuts && s.past[id].bytes != [] ==>
              && !JobState(s, id, w).rows[id].sealed
              && JobState(s, id, w).files[s.rows[id].path] != Lift(s.past[id].bytes)
  {
    if Runs(s, id, w) {
      OutcomeExact(w, s.files[s.rows[id].path], s.active in s.keys, s.active);
      if JobState(s, id, w).past[id].cuts > s.past[id].cuts && s.past[id].bytes != [] { CutImage(s, id, w); }
    }
  }

  lemma CutImage(s: State, id: string, w: JobWeather)
    requires Consistent(s) && id in DueIds(s.rows) && Runs(s, id, w) && s.past[id].bytes != []
    requires JobState(s, id, w).past[id].cuts > 0
    ensures s.rows[id].path in JobState(s, id, w).files
    ensures JobState(s, id, w).files[s.rows[id].path] != Lift(s.past[id].bytes)
  {
    var path, s' := s.rows[id].path, JobState(s, id, w);
    JobRecordingOk(s, id, w);
    LayersPlain(s'.files[path], s'.past[id].bytes, s'.past[id].cuts + (if s'.rows[id].sealed then 1 else 0), path);
  }

  /** What a job did to one recording, seen from outside. */
  ghost predicate TouchesOne(s: State, s': State, id: string)
  {
    && id in s.rows && id in s.past && id in s'.rows && id in s'.past
    && OnlyTouches(s.files, s'.files, s.rows[id].path) && s.rows[id].path in s.files && s.rows[id].path in s'.files
    && s'.keys == s.keys && s'.active == s.active
    && s'.rows == s.rows[id := s'.rows[id]] && s'.past == s.past[id := s'.past[id]]
    && Advances(s.rows[id], s.past[id], s'.rows[id], s'.past[id])
    && RecordingOk(s'.files[s.rows[id].path], s'.rows[id], s'.past[id])
  }

  lemma OthersFiles(s: State, s': State, id: string, a: string)
    requires Consistent(s) && TouchesOne(s, s', id) && a in s.rows && a != id
    ensures s.rows[a].path in s'.files <==> s.rows[a].path in s.files
    ensures s.rows[a].path in s'.files ==> s'.files[s.rows[a].path] == s.files[s.rows[a].path]
  {
    assert Apart(s.rows[id].path, s.rows[a].path);
  }

  lemma OthersKept(s: State, s': State, id: string)
    requires Consistent(s) && TouchesOne(s, s', id) && s.rows[id].ended
    ensures Consistent(s')
  {
    forall a | a in s'.rows ensures RowOk(s'.files, s'.rows[a], s'.past[a]) {
      assert RowOk(s.files, s.rows[a], s.past[a]);
      if a != id { OthersFiles(s, s', id, a); }
    }
    ApartKept(s.rows, s'.rows);
  }

  lemma ApartKept(rows: Rows, rows': Rows)
    requires AllApart(rows) && rows'.Keys == rows.Keys && forall a :: a in rows ==> rows'[a].path == rows[a].path
    ensures AllApart(rows')
  {
  }

  lemma OthersAdvance(s: State, s': State, id: string)
    requires Consistent(s) && TouchesOne(s, s', id) && !s.rows[id].sealed
    ensures AllAdvance(s, s')
  {
    forall a | a in s.rows ensures AdvancesAt(s, s', a) {
      if a != id { OthersFiles(s, s', id, a); }
    }
  }

  // ---- one tick ----

  /** One tick's luck: whether the query works, the order it visits rows in, and each job's. */
  datatype TickWeather = TickWeather(lists: bool, order: seq<string>, job: string -> JobWeather)
  {
    ghost predicate Calm(ids: set<string>) {
      lists && ids <= Ids(order) && forall id :: id in ids ==> job(id).Calm()
    }
  }

  function DueIds(rows: Rows): set<string> { set a | a in rows && rows[a].ended && !rows[a].sealed }

  /** The jobs in turn; a crash ends it. */
  function JobsState(s: State, jobs: seq<string>, w: string -> JobWeather): (s': State)
    requires Ids(jobs) <= s.rows.Keys && s.rows.Keys == s.past.Keys
    ensures s'.rows.Keys == s.rows.Keys && s'.past.Keys == s.past.Keys
    decreases |jobs|
  {
    if jobs == [] then s else
    assert jobs[0] in Ids(jobs) && Ids(jobs[1..]) <= Ids(jobs);
    var next := JobState(s, jobs[0], w(jobs[0]));
    if JobCrashes(s, jobs[0], w(jobs[0])) then next else JobsState(next, jobs[1..], w)
  }

  function Jobs(s: State, t: TickWeather): seq<string> {
    if s.keys == map[] || !t.lists then [] else Answer(DueIds(s.rows), t.order, SWEEP_LIMIT)
  }

  lemma JobsSound(s: State, t: TickWeather)
    ensures Distinct(Jobs(s, t)) && Ids(Jobs(s, t)) <= DueIds(s.rows) && |Jobs(s, t)| <= SWEEP_LIMIT
  {
    AnswerSound(DueIds(s.rows), t.order, SWEEP_LIMIT);
  }

  function TickState(s: State, t: TickWeather): (s': State)
    requires s.rows.Keys == s.past.Keys
    ensures s'.rows.Keys == s.rows.Keys && s'.past.Keys == s.past.Keys
  {
    JobsSound(s, t);
    JobsState(s, Jobs(s, t), t.job)
  }

  lemma {:induction false} JobsKeep(s: State, jobs: seq<string>, w: string -> JobWeather)
    requires Consistent(s) && Distinct(jobs) && Ids(jobs) <= DueIds(s.rows)
    ensures Consistent(JobsState(s, jobs, w)) && AllAdvance(s, JobsState(s, jobs, w))
    ensures forall a :: a in s.rows && a !in jobs ==> JobsState(s, jobs, w).rows[a] == s.rows[a]
    decreases |jobs|
  {
    if jobs != [] {
      var id := jobs[0];
      assert id in Ids(jobs);
      JobKeeps(s, id, w(id));
      var next := JobState(s, id, w(id));
      if !JobCrashes(s, id, w(id)) {
        forall a | a in Ids(jobs[1..]) ensures a in DueIds(next.rows) {
          assert a in Ids(jobs) && a != id;
        }
        JobsKeep(next, jobs[1..], w);
        AdvanceTrans(s, next, JobsState(next, jobs[1..], w));
      }
    }
  }

  lemma CalmJobSeals(s: State, id: string, w: JobWeather)
    requires Consistent(s) && id in s.rows && w.Calm() && s.active in s.keys
    ensures !JobCrashes(s, id, w) && JobState(s, id, w).past == s.past
    ensures s.rows[id].path in s.files ==>
              JobState(s, id, w).rows[id] ==
              s.rows[id].(sealed := true, digest := Sha256(s.files[s.rows[id].path]), keyId := s.active)
  {
    if s.rows[id].path in s.files { CalmCopies(w, |s.files[s.rows[id].path]|, 0, 0); }
    assert s.past[id := s.past[id]] == s.past;
  }

  lemma {:induction false} CalmJobsSeal(s: State, jobs: seq<string>, w: string -> JobWeather)
    requires Consistent(s) && Distinct(jobs) && Ids(jobs) <= DueIds(s.rows) && s.active in s.keys
    requires forall id :: id in Ids(jobs) ==> w(id).Calm()
    ensures JobsState(s, jobs, w).past == s.past
    ensures forall id :: id in Ids(jobs) && s.rows[id].path in s.files ==> JobsState(s, jobs, w).rows[id].sealed
    decreases |jobs|
  {
    if jobs != [] {
      var id, rest := jobs[0], jobs[1..];
      assert id in Ids(jobs) && Ids(jobs) == {id} + Ids(rest);
      CalmJobSeals(s, id, w(id));
      JobKeeps(s, id, w(id));
      var next := JobState(s, id, w(id));
      CalmJobsSeal(next, rest, w);
      JobsKeep(next, rest, w);
    }
  }

  /** A tick keeps the state consistent, whatever strikes, and touches neither sealed rows nor
      their files, nor live sessions. */
  lemma TickKeeps(s: State, t: TickWeather)
    requires Consistent(s)
    ensures Consistent(TickState(s, t)) && AllAdvance(s, TickState(s, t))
    ensures forall a :: a in s.rows && !s.rows[a].ended ==> TickState(s, t).rows[a] == s.rows[a]
  {
    JobsSound(s, t);
    JobsKeep(s, Jobs(s, t), t.job);
    forall a | a in s.rows && !s.rows[a].ended
      ensures a !in Jobs(s, t)
    {
      assert a in Jobs(s, t) ==> a in Ids(Jobs(s, t));
    }
  }

  /** When nothing goes wrong and at most fifty recordings are due, a tick seals every one that
      is on disk, and cuts none. */
  lemma CalmTickSeals(s: State, t: TickWeather)
    requires Consistent(s) && s.active in s.keys && t.Calm(DueIds(s.rows)) && |DueIds(s.rows)| <= SWEEP_LIMIT
    ensures TickState(s, t).past == s.past
    ensures forall a :: a in DueIds(s.rows) && s.rows[a].path in s.files ==> TickState(s, t).rows[a].sealed
  {
    JobsSound(s, t);
    AnswerComplete(DueIds(s.rows), t.order, SWEEP_LIMIT);
    assert Ids(Jobs(s, t)) == DueIds(s.rows);
    CalmJobsSeal(s, Jobs(s, t), t.job);
  }

  // ---- many ticks ----

  /** Nothing goes wrong with the job, except that its path may be unsafe. */
  ghost predicate Fair(w: JobWeather) { w.(safe := true).Calm() }

  /** Nothing goes wrong with the tick, except that the given recordings alone have safe paths. */
  ghost predicate FairTick(t: TickWeather, ids: set<string>, safe: string -> bool) {
    t.lists && ids <= Ids(t.order) && forall id :: id in ids ==> Fair(t.job(id)) && t.job(id).safe == safe(id)
  }

  /** Due recordings a tick can seal, and due recordings it takes on in vain. */
  function Sealable(s: State, safe: string -> bool): set<string> {
    set a | a in DueIds(s.rows) && s.rows[a].path in s.files && safe(a)
  }

  function Blocked(s: State, safe: string -> bool): set<string> { DueIds(s.rows) - Sealable(s, safe) }

  lemma FairJob(s: State, id: string, w: JobWeather)
    requires Consistent(s) && id in s.rows && Fair(w) && s.active in s.keys
    ensures !JobCrashes(s, id, w)
    ensures if Runs(s, id, w) then JobState(s, id, w).rows[id].sealed else JobState(s, id, w) == s
  {
    if Runs(s, id, w) {
      assert w == w.(safe := true);
      CalmJobSeals(s, id, w);
    }
  }

  lemma {:induction false} FairJobs(s: State, jobs: seq<string>, w: string -> JobWeather)
    requires Consistent(s) && Distinct(jobs) && Ids(jobs) <= DueIds(s.rows) && s.active in s.keys
    requires forall id :: id in Ids(jobs) ==> Fair(w(id))
    ensures forall id :: id in Ids(jobs) ==>
              if Runs(s, id, w(id)) then JobsState(s, jobs, w).rows[id].sealed
              else JobsState(s, jobs, w).rows[id] == s.rows[id]
    decreases |jobs|
  {
    if jobs != [] {
      var id, rest := jobs[0], jobs[1..];
      assert id in Ids(jobs) && Ids(jobs) == {id} + Ids(rest);
      FairJob(s, id, w(id));
      JobKeeps(s, id, w(id));
      var next := JobState(s, id, w(id));
      FairJobs(next, rest, w);
      JobsKeep(next, rest, w);
      forall a | a in Ids(rest) ensures Runs(next, a, w(a)) <==> Runs(s, a, w(a)) { assert AdvancesAt(s, next, a); }
    }
  }

  /** A fair tick seals exactly the sealable recordings among its jobs, and leaves every other
      row alone. */
  lemma FairTickSeals(s: State, t: TickWeather, safe: string -> bool)
    requires Consistent(s) && s.active in s.keys && FairTick(t, s.rows.Keys, safe)
    ensures Consistent(TickState(s, t)) && AllAdvance(s, TickState(s, t))
    ensures Sealable(TickState(s, t), safe) == Sealable(s, safe) - Ids(Jobs(s, t))
    ensures Blocked(TickState(s, t), safe) == Blocked(s, safe)
  {
    var jobs, s' := Jobs(s, t), TickState(s, t);
    JobsSound(s, t);
    JobsKeep(s, jobs, t.job);
    FairJobs(s, jobs, t.job);
    forall a | a in s.rows
      ensures a in Sealable(s', safe) <==> a in Sealable(s, safe) && a !in Ids(jobs)
      ensures a in Blocked(s', safe) <==> a in Blocked(s, safe)
    {
      assert AdvancesAt(s, s', a) && (a in jobs <==> a in Ids(jobs)) && t.job(a).safe == safe(a);
    }
  }

  /** With fewer than fifty blocked, a fair tick seals something whenever it can. */
  lemma FairTickProgress(s: State, t: TickWeather, safe: string -> bool)
    requires Consistent(s) && s.active in s.keys && FairTick(t, s.rows.Keys, safe)
    requires |Blocked(s, safe)| < SWEEP_LIMIT && Sealable(s, safe) != {}
    ensures |Sealable(TickState(s, t), safe)| < |Sealable(s, safe)|
  {
    var jobs, due := Jobs(s, t), DueIds(s.rows);
    FairTickSeals(s, t, safe);
    assert s.keys != map[];
    AnswerComplete(due, t.order, SWEEP_LIMIT);
    assert s.rows.Keys <= Ids(t.order) && due <= s.rows.Keys;
    AnswerHits(jobs, due, Sealable(s, safe), SWEEP_LIMIT);
    var hit :| hit in Ids(jobs) * Sealable(s, safe);
    SubsetSize(Sealable(s, safe) - Ids(jobs), Sealable(s, safe) - {hit});
  }

  /** The state after some ticks. */
  function Ticked(s: State, ts: seq<TickWeather>): (s': State)
    requires s.rows.Keys == s.past.Keys
    ensures s'.rows.Keys == s'.past.Keys == s.rows.Keys
  {
    if ts == [] then s else TickState(Ticked(s, ts[..|ts| - 1]), ts[|ts| - 1])
  }

  ghost predicate FairTicks(ts: seq<TickWeather>, ids: set<string>, safe: string -> bool) {
    forall i :: 0 <= i < |ts| ==> FairTick(ts[i], ids, safe)
  }

  lemma {:induction false} FairTicksSeal(s: State, ts: seq<TickWeather>, safe: string -> bool)
    requires Consistent(s) && s.active in s.keys && FairTicks(ts, s.rows.Keys, safe)
    requires |Blocked(s, safe)| < SWEEP_LIMIT
    ensures var s' := Ticked(s, ts);
            && Consistent(s') && s'.active == s.active && s'.keys == s.keys && Blocked(s', safe) == Blocked(s, safe)
            && |Sealable(s', safe)| <= (if |ts| < |Sealable(s, safe)| then |Sealable(s, safe)| - |ts| else 0)
  {
    if ts != [] {
      var before := Ticked(s, ts[..|ts| - 1]);
      FairTicksSeal(s, ts[..|ts| - 1], safe);
      FairTickSeals(before, ts[|ts| - 1], safe);
      if Sealable(before, safe) != {} { FairTickProgress(before, ts[|ts| - 1], safe); }
    }
  }

  /** With fifty blocked the database may list those alone, tick after tick. */
  lemma IdleTick(s: State, safe: string -> bool) returns (t: TickWeather)
    requires Consistent(s) && s.active in s.keys && |Blocked(s, safe)| >= SWEEP_LIMIT
    ensures FairTick(t, s.rows.Keys, safe) && TickState(s, t) == s
  {
    var first := OrderOf(Blocked(s, safe));
    var all := OrderOf(s.rows.Keys);
    t := TickWeather(true, first + all, (id: string) => CalmExcept(safe(id)));
    forall id | id in s.rows.Keys ensures id in t.order { assert id in Ids(all); }
    IdsSize(first);
    AnswerPrefix(DueIds(s.rows), first, all, SWEEP_LIMIT);
    BlockedTick(s, t, safe);
  }

  /** A tick whose jobs are all blocked changes nothing. */
  lemma BlockedTick(s: State, t: TickWeather, safe: string -> bool)
    requires Consistent(s) && FairTick(t, s.rows.Keys, safe) && Ids(Jobs(s, t)) <= Blocked(s, safe)
    ensures TickState(s, t) == s
  {
    JobsSound(s, t);
    forall id | id in Ids(Jobs(s, t)) ensures !Runs(s, id, t.job(id)) {
      assert id in Blocked(s, safe) && t.job(id).safe == safe(id);
    }
    IdleJobs(s, Jobs(s, t), t.job);
  }

  ghost function CalmExcept(safe: bool): JobWeather {
    JobWeather(safe, true, (i: nat) => 0, (i: nat) => false, (i: nat) => false, false, true, [], true, false, true,
               false)
  }

  lemma {:induction false} IdleJobs(s: State, jobs: seq<string>, w: string -> JobWeather)
    requires Ids(jobs) <= s.rows.Keys && s.rows.Keys == s.past.Keys
    requires forall id :: id in Ids(jobs) && id in s.rows ==> !Runs(s, id, w(id))
    ensures JobsState(s, jobs, w) == s
  {
    if jobs != [] {
      assert jobs[0] in Ids(jobs) && Ids(jobs[1..]) <= Ids(jobs);
      IdleJobs(s, jobs[1..], w);
    }
  }

  /**
   Whatever the database lists, as many fair ticks as there are sealable recordings seal them
   all, exactly when fewer than fifty due recordings are off disk or have an unsafe path, or
   nothing can be sealed.
   */
  lemma EventuallySealed(s: State, safe: string -> bool)
    requires Consistent(s) && s.active in s.keys
    ensures (forall ts: seq<TickWeather> :: FairTicks(ts, s.rows.Keys, safe) && |ts| >= |Sealable(s, safe)| ==>
               Sealable(Ticked(s, ts), safe) == {})
            <==> |Blocked(s, safe)| < SWEEP_LIMIT || Sealable(s, safe) == {}
  {
    if |Blocked(s, safe)| < SWEEP_LIMIT {
      forall ts: seq<TickWeather> | FairTicks(ts, s.rows.Keys, safe) && |ts| >= |Sealable(s, safe)|
        ensures Sealable(Ticked(s, ts), safe) == {}
      {
        FairTicksSeal(s, ts, safe);
      }
    } else if Sealable(s, safe) == {} {
      forall ts: seq<TickWeather> | FairTicks(ts, s.rows.Keys, safe) ensures Sealable(Ticked(s, ts), safe) == {} {
        NothingToSeal(s, ts, safe);
      }
    } else {
      var ts := NeverSealed(s, safe);
      assert FairTicks(ts, s.rows.Keys, safe) && Sealable(Ticked(s, ts), safe) != {};
    }
  }

  lemma NeverSealed(s: State, safe: string -> bool) returns (ts: seq<TickWeather>)
    requires Consistent(s) && s.active in s.keys && |Blocked(s, safe)| >= SWEEP_LIMIT
    ensures FairTicks(ts, s.rows.Keys, safe) && |ts| == |Sealable(s, safe)| && Ticked(s, ts) == s
  {
    var t := IdleTick(s, safe);
    ts := seq(|Sealable(s, safe)|, i requires 0 <= i < |Sealable(s, safe)| => t);
    IdleTicks(s, t, ts);
  }

  lemma {:induction false} NothingToSeal(s: State, ts: seq<TickWeather>, safe: string -> bool)
    requires Consistent(s) && s.active in s.keys && FairTicks(ts, s.rows.Keys, safe) && Sealable(s, safe) == {}
    ensures var s' := Ticked(s, ts);
            Consistent(s') && s'.active == s.active && s'.keys == s.keys && Sealable(s', safe) == {}
  {
    if ts != [] {
      NothingToSeal(s, ts[..|ts| - 1], safe);
      FairTickSeals(Ticked(s, ts[..|ts| - 1]), ts[|ts| - 1], safe);
    }
  }

  lemma {:induction false} IdleTicks(s: State, t: TickWeather, ts: seq<TickWeather>)
    requires s.rows.Keys == s.past.Keys && TickState(s, t) == s && forall i :: 0 <= i < |ts| ==> ts[i] == t
    ensures Ticked(s, ts) == s
  {
    if ts != [] { IdleTicks(s, t, ts[..|ts| - 1]); }
  }

  // ---- whole runs ----

  datatype Op =
    | Start(id: string, path: Path)             // a session begins to be recorded
    | Finish(id: string, bytes: seq<int>)       // it ends, its plaintext file complete
    | Rotate(keys: map<int, int>, active: int)  // the operator changes the keyring
    | Tick(t: TickWeather)

  predicate Startable(s: State, id: string, path: Path) {
    id !in s.rows && path !in s.files && forall a :: a in s.rows ==> Apart(path, s.rows[a].path)
  }

  function After(s: State, op: Op): (s': State)
    requires s.rows.Keys == s.past.Keys
  {
    match op
    case Start(id, path) =>
      if !Startable(s, id, path) then s
      else s.(rows := s.rows[id := Row(path, false, false, NoDigest, 0)], past := s.past[id := Past([], 0)])
    case Finish(id, bytes) =>
      if id !in s.rows || s.rows[id].ended then s
      else s.(files := s.files[s.rows[id].path := Lift(bytes)], rows := s.rows[id := s.rows[id].(ended := true)],
              past := s.past[id := Past(bytes, 0)])
    case Rotate(keys, active) => s.(keys := keys, active := active)
    case Tick(t) => TickState(s, t)
  }

  lemma AfterKeeps(s: State, op: Op)
    requires Consistent(s)
    ensures Consistent(After(s, op))
  {
    match op
    case Start(_, _) =>
    case Finish(id, bytes) => FinishKeeps(s, id, bytes);
    case Rotate(_, _) =>
    case Tick(t) => TickKeeps(s, t);
  }

  lemma FinishKeeps(s: State, id: string, bytes: seq<int>)
    requires Consistent(s)
    ensures Consistent(After(s, Finish(id, bytes)))
  {
    var s' := After(s, Finish(id, bytes));
    if s' != s {
      assert RecordingOk(Lift(bytes), s'.rows[id], Past(bytes, 0));
      forall a | a in s.rows && a != id ensures s.rows[a].path != s.rows[id].path {
        assert Apart(s.rows[a].path, s.rows[id].path);
      }
    }
  }

  /** The state after a run, with everything that went wrong in it; and the invariant every
      run keeps. */
  ghost function Run(ops: seq<Op>): (s: State)
    ensures Consistent(s)
  {
    if ops == [] then NoState else
    var s := Run(ops[..|ops| - 1]);
    AfterKeeps(s, ops[|ops| - 1]);
    After(s, ops[|ops| - 1])
  }

  /** In any run, the row of a non-empty recording that was never cut is marked sealed exactly
      when its file is sealed, and then it is sealed once, with the right digest and key id. */
  lemma SealedExactlyOnce(ops: seq<Op>, id: string)
    requires var s := Run(ops);
             id in s.rows && s.rows[id].path in s.files && s.past[id].cuts == 0 && s.past[id].bytes != []
    ensures var s := Run(ops); var row, image, bytes := s.rows[id], s.files[s.rows[id].path], s.past[id].bytes;
            && (row.sealed <==> image != Lift(bytes))
            && (row.sealed ==> && Framed(image, row.path) && Peel(image, row.path) == Lift(bytes)
                               && row.digest == Sha256(Lift(bytes)) && SealedBy(image, row.keyId))
  {
    var s := Run(ops);
    var row, image, bytes := s.rows[id], s.files[s.rows[id].path], s.past[id].bytes;
    assert RecordingOk(image, row, s.past[id]);
    LayersPlain(image, bytes, if row.sealed then 1 else 0, row.path);
    if row.sealed { assert Layers(Peel(image, row.path), bytes, 0, row.path); }
  }

  // ---- the store ----

  class Recordings {
    var files: Files
    var rows: Rows
    var keys: map<int, int>
    var active: int
    ghost var past: Pasts

    ghost function St(): State
      reads this
    {
      State(files, rows, keys, active, past)
    }

    constructor ()
      ensures St() == NoState
    {
      files, rows, keys, active, past := map[], map[], map[], 0, map[];
    }

    method StartRecording(id: string, path: Path)
      requires Consistent(St())
      modifies this
      ensures St() == After(old(St()), Start(id, path))
    {
      if id !in rows && path !in files && forall a :: a in rows ==> Apart(path, rows[a].path) {
        rows, past := rows[id := Row(path, false, false, NoDigest, 0)], past[id := Past([], 0)];
      }
    }

    method FinishRecording(id: string, bytes: seq<int>)
      requires Consistent(St())
      modifies this
      ensures St() == After(old(St()), Finish(id, bytes))
    {
      if id in rows && !rows[id].ended {
        files := files[rows[id].path := Lift(bytes)];
        rows, past := rows[id := rows[id].(ended := true)], past[id := Past(bytes, 0)];
      }
    }

    method RotateKeys(keys: map<int, int>, active: int)
      requires Consistent(St())
      modifies this`keys, this`active
      ensures St() == After(old(St()), Rotate(keys, active))
    {
      this.keys, this.active := keys, active;
    }

    /** Seals one file: temporary sibling, chunks, sync, rename. */
    method SealOne(path: Path, w: JobWeather) returns (res: Outcome)
      requires path in files
      modifies this`files
      ensures files == FilesAfter(old(files), path, keys, active, w)
      ensures res == OutcomeOf(w, old(files)[path], active in keys, active)
    {
      if active !in keys || !w.opens { return Failed; }
      var src, tmp := files[path], Tmp(path);
      TmpDiffers(path);
      files := files[tmp := []];
      var fate, hashed := WriteFrames(src, path, tmp, w);
      if fate.CopyCrashed? { files := files[tmp := w.left]; return Crashed; }
      if fate.CopyFailed? || !w.syncs {
        if w.removes { files := files - {tmp}; } else { files := files[tmp := w.left]; }
        return Failed;
      }
      files := files[path := files[tmp]] - {tmp};
      if w.crashRenamed { return Crashed; }
      return Done(Sha256(hashed), active);
    }

    /** Reads the source in chunks, hashes each and appends it as a frame to the temporary file. */
    method WriteFrames(src: Image, path: Path, tmp: Path, w: JobWeather) returns (fate: Copy, hashed: Image)
      requires active in keys && tmp in files && files[tmp] == []
      modifies this`files
      ensures tmp in files && files == old(files)[tmp := files[tmp]]
      ensures fate == CopyFate(w, |src|, 0, 0)
      ensures fate == Copied ==> hashed == src && files[tmp] == Frames(w, src, path, active, keys[active], 0, 0)
    {
      var pos, i := 0, 0;
      hashed := [];
      while pos < |src|
        invariant pos <= |src| && hashed == src[..pos]
        invariant tmp in files && files == old(files)[tmp := files[tmp]]
        invariant Copying(w, src, path, active, keys[active], files[tmp], pos, i)
      {
        if w.crashes(i) { return CopyCrashed, hashed; }
        var chunk := src[pos..pos + ChunkSize(w.sizes(i), |src| - pos)];
        hashed := hashed + chunk;
        if w.chunkFails(i) { return CopyFailed, hashed; }
        CopyingOn(w, src, path, active, keys[active], files[tmp], pos, i);
        files := files[tmp := files[tmp] + [Frame(active, keys[active], path, chunk)]];
        pos, i := pos + |chunk|, i + 1;
      }
      return if w.crashCopied then CopyCrashed else Copied, hashed;
    }

    /** One job of the sweep: seal the file, then record it on the row. */
    method SealJob(id: string, w: JobWeather) returns (crashed: bool)
      requires id in rows && id in past
      modifies this`files, this`rows, this`past
      ensures St() == JobState(old(St()), id, w) && crashed == JobCrashes(old(St()), id, w)
    {
      var row := rows[id];
      if !w.safe || row.path !in files { return false; }
      ghost var renamed := Renames(w, |files[row.path]|, active in keys);
      OutcomeExact(w, files[row.path], active in keys, active);
      var res := SealOne(row.path, w);
      var stored := res.Done? && w.stores;
      past := past[id := NextPast(past[id], renamed, stored)];
      assert rows == rows[id := rows[id]];
      if stored { rows := rows[id := row.(sealed := true, digest := res.digest, keyId := res.keyId)]; }
      return res.Crashed? || (res.Done? && w.crashStored);
    }

    /** One tick: up to fifty ended, unsealed rows; a crash ends it. */
    method Sweep(t: TickWeather)
      requires Consistent(St())
      modifies this`files, this`rows, this`past
      ensures St() == TickState(old(St()), t)
    {
      if keys == map[] || !t.lists { return; }
      JobsSound(St(), t);
      var jobs := Select(DueIds(rows), t.order, SWEEP_LIMIT);
      ghost var end := TickState(St(), t);
      for i := 0 to |jobs|
        invariant Ids(jobs) <= rows.Keys == past.Keys && Ids(jobs[i..]) <= Ids(jobs)
        invariant JobsState(St(), jobs[i..], t.job) == end
      {
        assert jobs[i] in Ids(jobs) && jobs[i..][0] == jobs[i] && jobs[i..][1..] == jobs[i + 1..];
        var crashed := SealJob(jobs[i], t.job(jobs[i]));
        if crashed { return; }
      }
    }

    /**
     The download handler. It returns the original bytes exactly when the recording is empty,
     or no run was ever cut on it and, if it is sealed, the keyring still holds its keys.
     */
    method Download(id: string) returns (ok: bool, out: Image)
      requires Consistent(St())
      ensures id !in rows || rows[id].path !in files ==> !ok
      ensures id in rows && rows[id].path in files ==>
                ((ok && out == Lift(past[id].bytes)) <==>
                   || past[id].bytes == []
                   || (&& past[id].cuts == 0
                       && (rows[id].sealed ==> keys != map[] && KeysHeld(keys, files[rows[id].path]))))
    {
      if id !in rows || rows[id].path !in files { return false, []; }
      var row, image := rows[id], files[rows[id].path];
      ghost var bytes, k := past[id].bytes, past[id].cuts + (if row.sealed then 1 else 0);
      LayersPlain(image, bytes, k, row.path);
      LayersEmpty(image, bytes, k, row.path);
      if row.sealed && keys != map[] {
        ok, out := Decrypting(image, row.path);
        LayersPlain(Peel(image, row.path), bytes, k - 1, row.path);
      } else {
        ok, out := true, image;
      }
    }

    /** The decrypting reader: frame by frame, stopping at the first frame it cannot open. */
    method Decrypting(image: Image, scope: Path) returns (ok: bool, out: Image)
      requires Framed(image, scope)
      ensures ok <==> KeysHeld(keys, image)
      ensures ok ==> out == Peel(image, scope)
    {
      out := [];
      for i := 0 to |image|
        invariant KeysHeld(keys, image[..i]) && out + Peel(image[i..], scope) == Peel(image, scope)
      {
        var f := image[i];
        if f.keyId !in keys || keys[f.keyId] != f.master || f.scope != scope { return false, out; }
        assert image[i..][0] == f && image[i..][1..] == image[i + 1..];
        out := out + f.body;
      }
      assert image[..|image|] == image;
      ok := true;
    }
  }

  /** Any run, with failures and crashes wherever the input has them strike. */
  method Serve(ops: seq<Op>) returns (store: Recordings)
    ensures store.St() == Run(ops)
  {
    store := new Recordings();
    for i := 0 to |ops|
      invariant fresh(store) && store.St() == Run(ops[..i])
    {
      assert ops[..i + 1][..i] == ops[..i];
      AfterKeeps(store.St(), ops[i]);
      match ops[i]
      case Start(id, path) => store.StartRecording(id, path);
      case Finish(id, bytes) => store.FinishRecording(id, bytes);
      case Rotate(keys, active) => store.RotateKeys(keys, active);
      case Tick(t) => store.Sweep(t);
    }
    assert ops[..|ops|] == ops;
  }
}
