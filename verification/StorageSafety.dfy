/** Rows and blobs: no dangling row, every orphaned blob accounted for, one receipt per message. */
module StorageSafety {
  import opened Domain
  import opened Mail
  import opened Machine
  import opened Shapes
  import History

  // ----- the invariant ------------------------------------------------------

  /** The key an ingest holds while its blob has no committed row it knows of. */
  predicate Holds(g: Ingest, key: BlobKey) {
    g.stage == Stored(key) || g.stage == RollingBack(key)
  }

  predicate RowPointsAt(s: State, id: ReceiptId, key: BlobKey) {
    id in s.db.rows && s.db.rows[id].key == key
  }

  ghost predicate KeysFresh(s: State) {
    && (forall id <- s.db.rows :: id < s.db.nextRow && s.db.rows[id].key in s.past.attached)
    && (forall k <- s.past.attached :: k < s.bucket.nextKey)
    && (forall k <- s.bucket.blobs :: k < s.bucket.nextKey)
    && (forall k <- s.past.wiped :: k < s.bucket.nextKey)
    && (forall i, k: BlobKey | 0 <= i < |s.ingests| && Holds(s.ingests[i], k) :: k < s.bucket.nextKey)
  }

  ghost predicate RowKeysDistinct(s: State) {
    forall a <- s.db.rows, b <- s.db.rows | a != b :: s.db.rows[a].key != s.db.rows[b].key
  }

  ghost predicate HeldKeysDistinct(s: State) {
    forall i, j, k | 0 <= i < |s.ingests| && 0 <= j < |s.ingests| &&
      Holds(s.ingests[i], k) && Holds(s.ingests[j], k) :: i == j
  }

  ghost predicate HeldKeysLoose(s: State) {
    forall i, k | 0 <= i < |s.ingests| && Holds(s.ingests[i], k) ::
      && k !in s.past.wiped
      && (s.ingests[i].stage.Stored? ==> k in s.bucket.blobs && k !in s.past.attached)
      && (k in s.past.attached ==> k in s.past.unacked)
  }

  /** A row's blob is there unless the clean-up of a lost acknowledgement removed it. */
  predicate RowsBacked(s: State) {
    forall id <- s.db.rows ::
      && (s.db.rows[id].key in s.bucket.blobs <==> s.db.rows[id].key !in s.past.wiped)
      && (s.db.rows[id].key in s.past.wiped ==> s.db.rows[id].key in s.past.unacked)
  }

  predicate DeletionOk(s: State, d: Deletion) {
    match d.stage
    case Found(key) =>
      && d.receipt < s.db.nextRow && key in s.past.attached
      && (d.receipt in s.db.rows ==> s.db.rows[d.receipt].key == key)
      && (forall id <- s.db.rows | s.db.rows[id].key == key :: id == d.receipt)
    case Wiping(key) => key in s.past.attached && forall id <- s.db.rows :: s.db.rows[id].key != key
    case _ => true
  }

  predicate DeletionsOk(s: State) {
    forall i | 0 <= i < |s.deletions| :: DeletionOk(s, s.deletions[i])
  }

  /** Why a blob may exist: a row points at it, an ingest or a deletion still has it in hand, or a
      crash or a failed delete let go of it. */
  ghost predicate Accounted(s: State, key: BlobKey) {
    || (exists id :: RowPointsAt(s, id, key))
    || (exists i :: 0 <= i < |s.ingests| && Holds(s.ingests[i], key))
    || (exists i :: 0 <= i < |s.deletions| && s.deletions[i].stage == Wiping(key))
    || key in s.past.excused
  }

  ghost predicate BlobsAccounted(s: State) {
    forall key <- s.bucket.blobs :: Accounted(s, key)
  }

  ghost predicate MessagesUnique(s: State) {
    forall a <- s.db.rows, b <- s.db.rows | a != b && s.db.rows[a].external.Some?
      && s.db.rows[a].owner == s.db.rows[b].owner ::
      s.db.rows[a].external != s.db.rows[b].external
  }

  ghost predicate StorageInv(s: State) {
    && KeysFresh(s) && RowKeysDistinct(s) && HeldKeysDistinct(s) && HeldKeysLoose(s)
    && RowsBacked(s) && DeletionsOk(s) && BlobsAccounted(s) && MessagesUnique(s)
  }

  // ----- steps that leave storage alone -------------------------------------

  predicate HoldsNothing(g: Ingest) {
    !g.stage.Stored? && !g.stage.RollingBack?
  }

  /** Nothing a blob or a row key depends on changes; new work holds no key yet. */
  predicate Quiet(s: State, s': State) {
    && SameRows(s, s')
    && s'.bucket.blobs == s.bucket.blobs && s'.db.nextRow == s.db.nextRow && s'.bucket.nextKey >= s.bucket.nextKey
    && s'.past.attached == s.past.attached && s'.past.excused == s.past.excused
      && s'.past.unacked == s.past.unacked && s'.past.wiped == s.past.wiped
    && |s.ingests| <= |s'.ingests|
    && (forall i | 0 <= i < |s.ingests| ::
          s'.ingests[i].stage == s.ingests[i].stage || (HoldsNothing(s.ingests[i]) && HoldsNothing(s'.ingests[i])))
    && (forall i | |s.ingests| <= i < |s'.ingests| :: HoldsNothing(s'.ingests[i]))
    && |s.deletions| <= |s'.deletions|
    && (forall i | 0 <= i < |s.deletions| :: s'.deletions[i] == s.deletions[i])
    && (forall i | |s.deletions| <= i < |s'.deletions| :: s'.deletions[i].stage == Finding)
  }

  lemma QuietKeepsInv(s: State, s': State)
    requires StorageInv(s) && Quiet(s, s')
    ensures StorageInv(s')
  {
    forall i, k | 0 <= i < |s'.ingests| && Holds(s'.ingests[i], k)
      ensures i < |s.ingests| && s'.ingests[i].stage == s.ingests[i].stage && Holds(s.ingests[i], k)
    {
    }
    forall i | 0 <= i < |s'.deletions| ensures DeletionOk(s', s'.deletions[i]) {
      if i < |s.deletions| {
        assert DeletionOk(s, s.deletions[i]);
      }
    }
    forall key <- s'.bucket.blobs ensures Accounted(s', key) {
      assert Accounted(s, key);
      if id :| RowPointsAt(s, id, key) {
        assert RowPointsAt(s', id, key);
      } else if i :| 0 <= i < |s.ingests| && Holds(s.ingests[i], key) {
        assert Holds(s'.ingests[i], key);
      } else if i :| 0 <= i < |s.deletions| && s.deletions[i].stage == Wiping(key) {
        assert s'.deletions[i].stage == Wiping(key);
      }
    }
  }

  // ----- one ingest step ----------------------------------------------------

  /** How a step of ingest `i` may touch storage. */
  predicate Replaces(s: State, s': State, i: nat) {
    && i < |s.ingests| && |s'.ingests| == |s.ingests|
    && (forall j | 0 <= j < |s.ingests| && j != i :: s'.ingests[j] == s.ingests[j])
    && s'.deletions == s.deletions
  }

  /** put_object stored a blob under a fresh key. */
  lemma PutKeepsInv(s: State, s': State, i: nat)
    requires StorageInv(s) && Replaces(s, s', i) && HoldsNothing(s.ingests[i])
    requires s'.db.rows == s.db.rows && s'.past.attached == s.past.attached && s'.past.unacked == s.past.unacked
      && s'.past.wiped == s.past.wiped
    requires s'.db.nextRow == s.db.nextRow && s'.bucket.nextKey == s.bucket.nextKey + 1
      && s'.bucket.blobs == s.bucket.blobs + {s.bucket.nextKey}
    requires || (s'.ingests[i].stage == Stored(s.bucket.nextKey) && s'.past.excused == s.past.excused)
             || (HoldsNothing(s'.ingests[i]) && s'.past.excused == s.past.excused + {s.bucket.nextKey})
    ensures StorageInv(s')
  {
    forall key <- s'.bucket.blobs ensures Accounted(s', key) {
      if key == s.bucket.nextKey {
        assert s'.ingests[i].stage == Stored(key) ==> Holds(s'.ingests[i], key);
      } else {
        assert Accounted(s, key);
        if id :| RowPointsAt(s, id, key) {
          assert RowPointsAt(s', id, key);
        } else if j :| 0 <= j < |s.ingests| && Holds(s.ingests[j], key) {
          assert Holds(s'.ingests[j], key);
        } else if j :| 0 <= j < |s.deletions| && s.deletions[j].stage == Wiping(key) {
          assert s'.deletions[j].stage == Wiping(key);
        }
      }
    }
  }

  /** The row's commit took effect; the caller may or may not have learned it. */
  lemma InsertKeepsInv(s: State, s': State, i: nat, key: BlobKey)
    requires StorageInv(s) && Replaces(s, s', i) && s.ingests[i].stage == Stored(key)
    requires !ViolatesMessageIndex(s, s.ingests[i].owner, s.ingests[i].external)
    requires s'.db.rows == s.db.rows[s.db.nextRow := Row(s.ingests[i].owner, key, s.ingests[i].external, Uploaded)]
    requires s'.db.nextRow == s.db.nextRow + 1 && s'.bucket.nextKey == s.bucket.nextKey
      && s'.bucket.blobs == s.bucket.blobs
    requires s'.past.attached == s.past.attached + {key} && s'.past.excused == s.past.excused
      && s'.past.wiped == s.past.wiped
    requires || (HoldsNothing(s'.ingests[i]) && s'.past.unacked == s.past.unacked)
             || (s'.ingests[i].stage == RollingBack(key) && s'.past.unacked == s.past.unacked + {key})
    ensures StorageInv(s')
  {
    var id := s.db.nextRow;
    assert Holds(s.ingests[i], key);
    assert RowPointsAt(s', id, key);
    forall k <- s'.bucket.blobs ensures Accounted(s', k) {
      assert Accounted(s, k);
      if a :| RowPointsAt(s, a, k) {
        assert RowPointsAt(s', a, k);
      } else if j :| 0 <= j < |s.ingests| && Holds(s.ingests[j], k) {
        assert j == i ==> k == key;
        assert j != i ==> Holds(s'.ingests[j], k);
      } else if j :| 0 <= j < |s.deletions| && s.deletions[j].stage == Wiping(k) {
        assert s'.deletions[j].stage == Wiping(k);
      }
    }
    forall j | 0 <= j < |s'.deletions| ensures DeletionOk(s', s'.deletions[j]) {
      assert DeletionOk(s, s.deletions[j]);
    }
  }

  /** The commit was rolled back: the key is still held, now for clean-up. */
  lemma RollbackKeepsInv(s: State, s': State, i: nat, key: BlobKey)
    requires StorageInv(s) && Replaces(s, s', i) && s.ingests[i].stage == Stored(key)
    requires s' == AtStage(s, i, RollingBack(key))
    ensures StorageInv(s')
  {
    assert Holds(s.ingests[i], key);
    assert Holds(s'.ingests[i], key);
    forall j, k | 0 <= j < |s'.ingests| && Holds(s'.ingests[j], k) ensures Holds(s.ingests[j], k) {
    }
    forall k <- s'.bucket.blobs ensures Accounted(s', k) {
      assert Accounted(s, k);
      if a :| RowPointsAt(s, a, k) {
        assert RowPointsAt(s', a, k);
      } else if j :| 0 <= j < |s.ingests| && Holds(s.ingests[j], k) {
        assert Holds(s'.ingests[j], k);
      } else if j :| 0 <= j < |s.deletions| && s.deletions[j].stage == Wiping(k) {
        assert s'.deletions[j].stage == Wiping(k);
      }
    }
  }

  /** The ingest lets go of its key: clean-up done, clean-up failed, or a crash. */
  lemma ReleaseKeepsInv(s: State, s': State, i: nat, key: BlobKey)
    requires StorageInv(s) && Replaces(s, s', i) && Holds(s.ingests[i], key) && HoldsNothing(s'.ingests[i])
    requires s'.db.rows == s.db.rows && s'.past.attached == s.past.attached && s'.past.unacked == s.past.unacked
    requires s'.db.nextRow == s.db.nextRow && s'.bucket.nextKey == s.bucket.nextKey
    requires || (&& s.ingests[i].stage == RollingBack(key) && s'.bucket.blobs == s.bucket.blobs - {key}
                 && s'.past.wiped == s.past.wiped + {key} && s'.past.excused == s.past.excused)
             || (s'.bucket.blobs == s.bucket.blobs && s'.past.wiped == s.past.wiped
               && s'.past.excused == s.past.excused + {key})
    ensures StorageInv(s')
  {
    forall j, k | 0 <= j < |s'.ingests| && Holds(s'.ingests[j], k)
      ensures j != i && Holds(s.ingests[j], k) && k != key
    {
    }
    forall id <- s'.db.rows
      ensures s'.db.rows[id].key in s'.bucket.blobs <==> s'.db.rows[id].key !in s'.past.wiped
      ensures s'.db.rows[id].key in s'.past.wiped ==> s'.db.rows[id].key in s'.past.unacked
    {
      assert s.db.rows[id].key in s.past.attached;
    }
    forall k <- s'.bucket.blobs ensures Accounted(s', k) {
      assert Accounted(s, k);
      if a :| RowPointsAt(s, a, k) {
        assert RowPointsAt(s', a, k);
      } else if j :| 0 <= j < |s.ingests| && Holds(s.ingests[j], k) {
        if j != i {
          assert Holds(s'.ingests[j], k);
        }
      } else if j :| 0 <= j < |s.deletions| && s.deletions[j].stage == Wiping(k) {
        assert s'.deletions[j].stage == Wiping(k);
      }
    }
    forall j | 0 <= j < |s'.deletions| ensures DeletionOk(s', s'.deletions[j]) {
      assert DeletionOk(s, s.deletions[j]);
    }
  }

  lemma CommitKeepsInv(s: State, i: nat, out: Outcome)
    requires StorageInv(s) && i < |s.ingests| && s.ingests[i].stage.Stored?
    ensures StorageInv(StepIngest(s, i, out))
  {
    var g := s.ingests[i];
    if ViolatesMessageIndex(s, g.owner, g.external) || out == Fails || out == Rejects {
      RollbackKeepsInv(s, StepIngest(s, i, out), i, g.stage.key);
    } else {
      InsertKeepsInv(s, StepIngest(s, i, out), i, g.stage.key);
    }
  }

  lemma LoopKeepsInv(s: State, i: nat, out: Outcome)
    requires StorageInv(s) && i < |s.ingests| && s.ingests[i].stage.Looping?
    ensures StorageInv(StepIngest(s, i, out))
  {
    if Puts(s.ingests[i], out) { LoopPutKeepsInv(s, i, out); } else { LoopRestKeepsInv(s, i, out); }
  }

  /** The loop is at an attachment to store, and the store takes it. */
  predicate Puts(g: Ingest, out: Outcome) {
    g.pos < |g.parts| && Screen(g.external.Some?, g.parts[g.pos]).Accept? && Applied(out)
  }

  lemma LoopPutKeepsInv(s: State, i: nat, out: Outcome)
    requires StorageInv(s) && i < |s.ingests| && s.ingests[i].stage.Looping? && Puts(s.ingests[i], out)
    ensures StorageInv(StepIngest(s, i, out))
  {
    hide StorageInv, Screen;
    PutKeepsInv(s, StepIngest(s, i, out), i);
  }

  lemma LoopRestKeepsInv(s: State, i: nat, out: Outcome)
    requires StorageInv(s) && i < |s.ingests| && s.ingests[i].stage.Looping? && !Puts(s.ingests[i], out)
    ensures StorageInv(StepIngest(s, i, out))
  {
    hide StorageInv, Screen;
    QuietKeepsInv(s, StepIngest(s, i, out));
  }

  lemma IngestStepKeepsInv(s: State, i: nat, out: Outcome)
    requires StorageInv(s) && i < |s.ingests|
    ensures StorageInv(StepIngest(s, i, out))
  {
    match s.ingests[i].stage
    case Stored(_) => CommitKeepsInv(s, i, out);
    case Looping => LoopKeepsInv(s, i, out);
    case RollingBack(key) => ReleaseKeepsInv(s, StepIngest(s, i, out), i, key);
    case _ => QuietKeepsInv(s, StepIngest(s, i, out));
  }

  lemma CrashKeepsInv(s: State, i: nat)
    requires StorageInv(s) && i < |s.ingests|
    ensures StorageInv(CrashIngest(s, i))
  {
    var s' := CrashIngest(s, i);
    match s.ingests[i].stage
    case Stored(key) => ReleaseKeepsInv(s, s', i, key);
    case RollingBack(key) => ReleaseKeepsInv(s, s', i, key);
    case _ => QuietKeepsInv(s, s');
  }

  // ----- one deletion step --------------------------------------------------

  /** Deletion `i` moves on; it may drop its row, remove its blob, or let go of its key. */
  lemma DeletionMoveKeepsInv(s: State, s': State, i: nat)
    requires StorageInv(s) && i < |s.deletions| && |s'.deletions| == |s.deletions|
    requires forall j | 0 <= j < |s.deletions| && j != i :: s'.deletions[j] == s.deletions[j]
    requires s'.ingests == s.ingests && s'.past.attached == s.past.attached && s'.past.unacked == s.past.unacked
      && s'.past.wiped == s.past.wiped
    requires s'.db.nextRow == s.db.nextRow && s'.bucket.nextKey == s.bucket.nextKey
    requires DeletionOk(s', s'.deletions[i])
    requires
      var d, d' := s.deletions[i], s'.deletions[i];
      || (!d.stage.Wiping? && s'.db.rows == s.db.rows && s'.bucket.blobs == s.bucket.blobs
        && s'.past.excused == s.past.excused)
      || (&& d.stage.Found? && s'.db.rows == s.db.rows - {d.receipt} && s'.bucket.blobs == s.bucket.blobs
          && ((d'.stage == Wiping(d.stage.key) && s'.past.excused == s.past.excused)
              || s'.past.excused == s.past.excused + {d.stage.key}))
      || (&& d.stage.Wiping? && s'.db.rows == s.db.rows && s'.past.excused == s.past.excused
        && s'.bucket.blobs == s.bucket.blobs - {d.stage.key})
      || (&& d.stage.Wiping? && s'.db.rows == s.db.rows && s'.past.excused == s.past.excused + {d.stage.key}
        && s'.bucket.blobs == s.bucket.blobs)
    ensures StorageInv(s')
  {
    var d := s.deletions[i];
    assert DeletionOk(s, d);
    forall j, k | 0 <= j < |s'.ingests| && Holds(s'.ingests[j], k) ensures Holds(s.ingests[j], k) {
    }
    forall j | 0 <= j < |s'.deletions| ensures DeletionOk(s', s'.deletions[j]) {
      assert DeletionOk(s, s.deletions[j]);
    }
    forall k <- s'.bucket.blobs ensures Accounted(s', k) {
      assert Accounted(s, k);
      if a :| RowPointsAt(s, a, k) {
        if a in s'.db.rows {
          assert RowPointsAt(s', a, k);
        } else {
          assert d.stage == Found(k);
          assert s'.deletions[i].stage == Wiping(k) || k in s'.past.excused;
        }
      } else if j :| 0 <= j < |s.ingests| && Holds(s.ingests[j], k) {
        assert Holds(s'.ingests[j], k);
      } else if j :| 0 <= j < |s.deletions| && s.deletions[j].stage == Wiping(k) {
        if j != i {
          assert s'.deletions[j].stage == Wiping(k);
        }
      }
    }
  }

  lemma DeletionStepKeepsInv(s: State, i: nat, out: Outcome)
    requires StorageInv(s) && i < |s.deletions|
    ensures StorageInv(StepDeletion(s, i, out))
  {
    var d := s.deletions[i];
    assert DeletionOk(s, d);
    DeletionMoveKeepsInv(s, StepDeletion(s, i, out), i);
  }

  lemma DeletionCrashKeepsInv(s: State, i: nat)
    requires StorageInv(s) && i < |s.deletions|
    ensures StorageInv(CrashDeletion(s, i))
  {
    DeletionMoveKeepsInv(s, CrashDeletion(s, i), i);
  }

  // ----- every event --------------------------------------------------------

  lemma WorkerKeepsInv(s: State, i: nat, out: Outcome)
    requires StorageInv(s) && i < |s.tasks|
    ensures StorageInv(StepTask(s, i, out))
  {
    WorkerShape(s, i, out);
    QuietKeepsInv(s, StepTask(s, i, out));
  }

  lemma SyncKeepsInv(s: State, i: nat, out: Outcome, answer: HistoryAnswer)
    requires StorageInv(s) && i < |s.syncs|
    ensures StorageInv(StepSync(s, i, out, answer))
  {
    SyncShape(s, i, out, answer);
    QuietKeepsInv(s, StepSync(s, i, out, answer));
  }

  lemma OutsideKeepsInv(s: State, e: Event)
    requires StorageInv(s) && Outside(e)
    ensures StorageInv(Next(s, e))
  {
    OutsideShape(s, e);
    QuietKeepsInv(s, Next(s, e));
  }

  lemma RetryIsQuiet(s: State, s': State)
    requires RetryOnly(s, s')
    ensures Quiet(s, s')
  {
  }

  lemma RestIsQuiet(s: State, e: Event)
    requires e.RunRetry? || e.RetryDies? || e.TaskRedelivered? || e.TaskDuplicated? || e.TaskKilled?
    ensures Quiet(s, Next(s, e))
  {
    if e.RunRetry? || e.RetryDies? { RetryWorkIsQuiet(s, e); } else { TaskControlIsQuiet(s, e); }
  }

  lemma RetryWorkIsQuiet(s: State, e: Event)
    requires e.RunRetry? || e.RetryDies?
    ensures Quiet(s, Next(s, e))
  {
    hide StepRetry, CrashRetry;
    match e
    case RunRetry(i, out) => if i < |s.retries| { RetryShape(s, i, out); RetryIsQuiet(s, Next(s, e)); }
    case RetryDies(i) => if i < |s.retries| { RetryCrashShape(s, i); RetryIsQuiet(s, Next(s, e)); }
  }

  lemma TaskControlIsQuiet(s: State, e: Event)
    requires e.TaskRedelivered? || e.TaskDuplicated? || e.TaskKilled?
    ensures Quiet(s, Next(s, e))
  {
    hide Quiet;
    TasksAreQuiet(s, Next(s, e).tasks);
  }

  lemma TasksAreQuiet(s: State, tasks: seq<Task>)
    ensures Quiet(s, s.(tasks := tasks))
  {
  }

  lemma NextKeepsInv(s: State, e: Event)
    requires StorageInv(s)
    ensures StorageInv(Next(s, e))
  {
    hide StorageInv, StepIngest, StepDeletion, StepTask, StepSync, CrashIngest, CrashDeletion;
    if Outside(e) {
      OutsideKeepsInv(s, e);
    } else {
      match e
      case RunIngest(i, out) => if i < |s.ingests| { IngestStepKeepsInv(s, i, out); }
      case IngestDies(i) => if i < |s.ingests| { CrashKeepsInv(s, i); }
      case RunDeletion(i, out) => if i < |s.deletions| { DeletionStepKeepsInv(s, i, out); }
      case DeletionDies(i) => if i < |s.deletions| { DeletionCrashKeepsInv(s, i); }
      case RunTask(i, out) => if i < |s.tasks| { WorkerKeepsInv(s, i, out); }
      case RunSync(i, out, answer) => if i < |s.syncs| { SyncKeepsInv(s, i, out, answer); }
      case _ => RestIsQuiet(s, e); QuietKeepsInv(s, Next(s, e));
    }
  }

  lemma {:induction false} RunKeepsInv(events: seq<Event>)
    ensures StorageInv(Run(INITIAL, events))
  {
    if events != [] {
      RunKeepsInv(events[..|events| - 1]);
      NextKeepsInv(Run(INITIAL, events[..|events| - 1]), events[|events| - 1]);
    }
  }

  // ----- what it means ------------------------------------------------------

  /** Whatever is delivered, concurrently or again, and whatever crashes: one receipt per message. */
  lemma {:induction false} OneReceiptPerMessage(events: seq<Event>, a: ReceiptId, b: ReceiptId)
    requires
      var rows := Run(INITIAL, events).db.rows;
      && a in rows && b in rows && rows[a].owner == rows[b].owner
      && rows[a].external.Some? && rows[a].external == rows[b].external
    ensures a == b
  {
    RunKeepsInv(events);
  }

  /** Event j committed the key's row with its acknowledgement lost; later event k was the clean-up that
      removed the key's blob. */
  predicate LosesThenWipes(events: seq<Event>, j: int, k: int, key: BlobKey) {
    j < k && History.HappenedAt(events, j, History.Unacknowledged(key))
    && History.HappenedAt(events, k, History.WipedOut(key))
  }

  /** A key cannot be attached once it was wiped: its row came first. */
  lemma AttachedBeforeWiped(events: seq<Event>, k: nat, key: BlobKey)
    requires History.HappenedAt(events, k, History.WipedOut(key)) && key in Run(INITIAL, events).past.attached
    ensures key in Run(INITIAL, events[..k]).past.attached
  {
    hide Run, Next, History.Causes;
    History.RecordedIffHappened(events, History.Attached(key));
    var j :| History.HappenedAt(events, j, History.Attached(key));
    if j < k {
      assert events[..k][..j] == events[..j];
      assert History.HappenedAt(events[..k], j, History.Attached(key));
      History.RecordedIffHappened(events[..k], History.Attached(key));
    } else {
      WipedIsNotStored(events, k, j, key);
    }
  }

  lemma WipedIsNotStored(events: seq<Event>, k: nat, j: nat, key: BlobKey)
    requires k <= j && History.HappenedAt(events, k, History.WipedOut(key))
    ensures !History.HappenedAt(events, j, History.Attached(key))
  {
    hide Run, Next;
    if j >= |events| { return; }
    RunKeepsInv(events[..j]);
    if k < j {
      assert events[..j][..k] == events[..k];
      assert History.HappenedAt(events[..j], k, History.WipedOut(key));
      History.RecordedIffHappened(events[..j], History.WipedOut(key));
    }
  }

  /** Exactly when a row's blob is missing: its commit took effect without its caller learning it, and
      the clean-up that followed removed the blob. */
  lemma {:induction false} RowDanglesIffWiped(events: seq<Event>, id: ReceiptId)
    requires id in Run(INITIAL, events).db.rows
    ensures
      var s := Run(INITIAL, events);
      s.db.rows[id].key !in s.bucket.blobs <==> exists j, k :: LosesThenWipes(events, j, k, s.db.rows[id].key)
  {
    hide Run, Next;
    var s := Run(INITIAL, events);
    var key := s.db.rows[id].key;
    RunKeepsInv(events);
    History.RecordedIffHappened(events, History.WipedOut(key));
    if key !in s.bucket.blobs {
      var k :| History.HappenedAt(events, k, History.WipedOut(key));
      AttachedBeforeWiped(events, k, key);
      RolledBackWasUnacknowledged(events, k, key);
    }
  }

  lemma RolledBackWasUnacknowledged(events: seq<Event>, k: nat, key: BlobKey)
    requires History.HappenedAt(events, k, History.WipedOut(key)) && key in Run(INITIAL, events[..k]).past.attached
    ensures exists j :: LosesThenWipes(events, j, k, key)
  {
    hide Run, Next;
    RunKeepsInv(events[..k]);
    assert Holds(Run(INITIAL, events[..k]).ingests[events[k].i], key);
    History.RecordedIffHappened(events[..k], History.Unacknowledged(key));
    var j :| History.HappenedAt(events[..k], j, History.Unacknowledged(key));
    assert events[..k][..j] == events[..j];
    assert LosesThenWipes(events, j, k, key);
  }

  /** The commit of a new row is the only place where a lost acknowledgement matters. */
  predicate Acknowledged(s: State, e: Event) {
    e.RunIngest? && e.i < |s.ingests| && s.ingests[e.i].stage.Stored? ==> e.out != AppliedButFails
  }

  predicate AcknowledgedRun(events: seq<Event>) {
    events == [] ||
      (AcknowledgedRun(events[..|events| - 1])
       && Acknowledged(Run(INITIAL, events[..|events| - 1]), events[|events| - 1]))
  }

  lemma AcknowledgedNext(s: State, e: Event)
    requires Acknowledged(s, e)
    ensures Next(s, e).past.unacked == s.past.unacked
  {
    if Outside(e) {
      OutsideShape(s, e);
    } else {
      match e
      case RunTask(i, out) => if i < |s.tasks| { WorkerShape(s, i, out); }
      case RunSync(i, out, answer) => if i < |s.syncs| { SyncShape(s, i, out, answer); }
      case RunDeletion(_, _) => DeletionShape(s, e);
      case DeletionDies(_) => DeletionShape(s, e);
      case RunRetry(i, out) => if i < |s.retries| { RetryShape(s, i, out); }
      case _ =>
    }
  }

  lemma {:induction false} AcknowledgedRunLosesNothing(events: seq<Event>)
    requires AcknowledgedRun(events)
    ensures Run(INITIAL, events).past.unacked == {}
  {
    if events != [] {
      AcknowledgedRunLosesNothing(events[..|events| - 1]);
      AcknowledgedNext(Run(INITIAL, events[..|events| - 1]), events[|events| - 1]);
    }
  }

  /** No dangling row: with acknowledged inserts, under failing puts, commits and clean-ups, crashes
      and deletions, each row's key has a blob. */
  lemma {:induction false} NoRowDangles(events: seq<Event>, id: ReceiptId)
    requires AcknowledgedRun(events) && id in Run(INITIAL, events).db.rows
    ensures Run(INITIAL, events).db.rows[id].key in Run(INITIAL, events).bucket.blobs
  {
    AcknowledgedRunLosesNothing(events);
    RunKeepsInv(events);
  }

  /** The acknowledgement is needed: here the insert commits, its caller sees an error and deletes
      the blob of the row it just created. */
  lemma {:induction false} LostAcknowledgementDangles() returns (events: seq<Event>)
    ensures
      var s := Run(INITIAL, events);
      0 in s.db.rows && s.db.rows[0].key !in s.bucket.blobs
  {
    var photo := Attachment("", true, 1, true);
    var e0 := BeginUpload(7, photo);
    var s1 := Next(INITIAL, e0);
    var s2 := Next(s1, RunIngest(0, Succeeds));
    var s3 := Next(s2, RunIngest(0, AppliedButFails));
    var s4 := Next(s3, RunIngest(0, Succeeds));
    assert s1.ingests[0] == Ingest(7, None, [photo], 0, Looping);
    assert s2.ingests[0].stage == Stored(0);
    assert s3.ingests[0].stage == RollingBack(0) && s3.db.rows == map[0 := Row(7, 0, None, Uploaded)];
    assert s4.bucket.blobs == s3.bucket.blobs - {0};
    RunSnoc(INITIAL, [], e0);
    RunSnoc(INITIAL, [e0], RunIngest(0, Succeeds));
    RunSnoc(INITIAL, [e0] + [RunIngest(0, Succeeds)], RunIngest(0, AppliedButFails));
    events := [e0] + [RunIngest(0, Succeeds)] + [RunIngest(0, AppliedButFails)];
    RunSnoc(INITIAL, events, RunIngest(0, Succeeds));
    assert [] + [e0] == [e0];
    events := events + [RunIngest(0, Succeeds)];
  }

  /** A blob is never an unexplained orphan: a row points at it, an ingest or a deletion has it in hand,
      or an event of the run let go of it: a lost acknowledgement of its put or of its row's deletion,
      a crash of the call that held it, or a clean-up or delete of it that failed. */
  lemma {:induction false} OrphansAreExplained(events: seq<Event>, key: BlobKey)
    requires key in Run(INITIAL, events).bucket.blobs
    ensures
      var s := Run(INITIAL, events);
      || (exists id :: RowPointsAt(s, id, key))
      || (exists i :: 0 <= i < |s.ingests| && Holds(s.ingests[i], key))
      || (exists i :: 0 <= i < |s.deletions| && s.deletions[i].stage == Wiping(key))
      || History.Happened(events, History.LetGo(key))
  {
    hide Run, Next, History.Causes;
    RunKeepsInv(events);
    assert Accounted(Run(INITIAL, events), key);
    History.RecordedIffHappened(events, History.LetGo(key));
  }

  /** No crash, no lost acknowledgement, and blob deletes that succeed. Puts, commits, queries and
      enqueueing may still fail, and any number of calls may race. */
  predicate Calm(s: State, e: Event) {
    match e
    case IngestDies(_) => false
    case DeletionDies(_) => false
    case RunIngest(i, out) =>
      out != AppliedButFails && (i < |s.ingests| && s.ingests[i].stage.RollingBack? ==> out == Succeeds)
    case RunDeletion(i, out) =>
      out != AppliedButFails && (i < |s.deletions| && s.deletions[i].stage.Wiping? ==> out == Succeeds)
    case _ => true
  }

  predicate CalmRun(events: seq<Event>) {
    events == [] ||
      (CalmRun(events[..|events| - 1]) && Calm(Run(INITIAL, events[..|events| - 1]), events[|events| - 1]))
  }

  lemma CalmNext(s: State, e: Event)
    requires Calm(s, e)
    ensures Next(s, e).past.excused == s.past.excused && Next(s, e).past.unacked == s.past.unacked
  {
    AcknowledgedNext(s, e);
    if Outside(e) {
      OutsideShape(s, e);
    } else {
      match e
      case RunTask(i, out) => if i < |s.tasks| { WorkerShape(s, i, out); }
      case RunSync(i, out, answer) => if i < |s.syncs| { SyncShape(s, i, out, answer); }
      case RunRetry(i, out) => if i < |s.retries| { RetryShape(s, i, out); }
      case _ =>
    }
  }

  lemma {:induction false} CalmRunExcusesNothing(events: seq<Event>)
    requires CalmRun(events)
    ensures Run(INITIAL, events).past.excused == {} && Run(INITIAL, events).past.unacked == {}
  {
    if events != [] {
      CalmRunExcusesNothing(events[..|events| - 1]);
      CalmNext(Run(INITIAL, events[..|events| - 1]), events[|events| - 1]);
    }
  }

  predicate NothingInHand(s: State) {
    && (forall i | 0 <= i < |s.ingests| :: HoldsNothing(s.ingests[i]))
    && (forall i | 0 <= i < |s.deletions| :: !s.deletions[i].stage.Wiping?)
  }

  /** Conservation: after a calm run, once nothing is in hand, blobs and rows match one to one. In
      particular the loser of a race for one message left no blob behind. */
  lemma {:induction false} CalmRunsConserveBlobs(events: seq<Event>)
    requires CalmRun(events) && NothingInHand(Run(INITIAL, events))
    ensures
      var s := Run(INITIAL, events);
      && s.bucket.blobs == (set id <- s.db.rows :: s.db.rows[id].key)
      && forall a <- s.db.rows, b <- s.db.rows | a != b :: s.db.rows[a].key != s.db.rows[b].key
  {
    var s := Run(INITIAL, events);
    RunKeepsInv(events);
    CalmRunExcusesNothing(events);
    forall key <- s.bucket.blobs ensures key in (set id <- s.db.rows :: s.db.rows[id].key) {
      assert Accounted(s, key);
      var id :| RowPointsAt(s, id, key);
    }
  }

  /** A delivery at its dedup query, which will find the message, or one that is over. */
  predicate Duplicate(s: State, i: nat) {
    && i < |s.ingests|
    && match s.ingests[i].stage
       case Checking => HasMessage(s, s.ingests[i].owner, s.ingests[i].external)
       case Finished(found) => found
       case Raised => true
       case _ => false
  }

  lemma DuplicateStep(s: State, i: nat, out: Outcome)
    requires Duplicate(s, i)
    ensures
      var s' := Next(s, RunIngest(i, out));
      && Duplicate(s', i) && s'.ingests[i].stage != Checking
      && s'.db == s.db && s'.bucket == s.bucket && s'.tasks == s.tasks && s'.past == s.past
      && |s'.ingests| == |s.ingests|
  {
  }

  /** A delivery whose dedup query finds its message changes neither rows, blobs nor the queue,
      however its remaining statements end. */
  lemma {:induction false} DuplicateDeliveryChangesNothing(s: State, i: nat, outcomes: seq<Outcome>)
    requires Duplicate(s, i)
    ensures
      var s' := Run(s, seq(|outcomes|, j requires 0 <= j < |outcomes| => RunIngest(i, outcomes[j])));
      && s'.db == s.db && s'.bucket == s.bucket && s'.tasks == s.tasks && s'.past == s.past
      && Duplicate(s', i)
      && (outcomes != [] ==> s'.ingests[i].stage == Finished(true) || s'.ingests[i].stage == Raised)
      && (outcomes == [] ==> s' == s)
  {
    var events := seq(|outcomes|, j requires 0 <= j < |outcomes| => RunIngest(i, outcomes[j]));
    if outcomes != [] {
      var init := outcomes[..|outcomes| - 1];
      DuplicateDeliveryChangesNothing(s, i, init);
      assert events[..|events| - 1] == seq(|init|, j requires 0 <= j < |init| => RunIngest(i, init[j]));
      DuplicateStep(Run(s, events[..|events| - 1]), i, outcomes[|outcomes| - 1]);
      hide Next;
    }
  }
}
