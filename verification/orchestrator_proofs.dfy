/**
 * What the orchestrator's batches and cycle do to the vault, stated per file
 * and proved about the step and batch functions of module Orchestration.
 */
module OrchestrationProofs {
  import opened Seqs
  import opened Lines
  import opened Paths
  import opened Orchestration

  // ---------------------------------------------------------------------
  // Which steps of a file's processing take effect
  // ---------------------------------------------------------------------

  /** The file was read and its log record appended (which needs the Logs
      folder). */
  predicate Logged(fs: Folders, faults: map<Name, Fault>, n: Name) {
    FaultOf(faults, n) != ReadFails && FaultOf(faults, n) != LogFails && LOGS in fs
  }

  /** The plan of Needs_Action file `n` was written. */
  predicate Writes(fs: Folders, faults: map<Name, Fault>, n: Name) {
    Logged(fs, faults, n) && FaultOf(faults, n) != WriteFails && PLANS in fs
  }

  /** Approved file `n` was moved to Done. */
  predicate Moves(fs: Folders, faults: map<Name, Fault>, n: Name) {
    Logged(fs, faults, n) && FaultOf(faults, n) != WriteFails && DONE in fs
  }

  /** The whole step raised nothing (`dest` is the folder it writes into). */
  predicate Completes(fs: Folders, dest: string, faults: map<Name, Fault>, n: Name) {
    FaultOf(faults, n) == NoFault && dest in fs && LOGS in fs
  }

  /** The files of a batch whose step raised nothing, in order. */
  function Completed(fs: Folders, dest: string, files: seq<Name>, faults: map<Name, Fault>): seq<Name>
    decreases |files|
  {
    if files == [] then []
    else
      var last := files[|files| - 1];
      Completed(fs, dest, files[..|files| - 1], faults) + (if Completes(fs, dest, faults, last) then [last] else [])
  }

  /** The files of a batch whose step raised, in order. */
  function Failed(fs: Folders, dest: string, files: seq<Name>, faults: map<Name, Fault>): seq<Name>
    decreases |files|
  {
    if files == [] then []
    else
      var last := files[|files| - 1];
      Failed(fs, dest, files[..|files| - 1], faults) + (if Completes(fs, dest, faults, last) then [] else [last])
  }

  /** The log records a batch appends: one per file that got as far as
      logging, in order. */
  function Records(fs: Folders, files: seq<Name>, c: Clock, actionType: string, faults: map<Name, Fault>): seq<LogRecord>
    decreases |files|
  {
    if files == [] then []
    else
      var last := files[|files| - 1];
      Records(fs, files[..|files| - 1], c, actionType, faults)
        + (if Logged(fs, faults, last) then [LogEntry(c, actionType, last)] else [])
  }

  /** The plan names a Needs_Action batch writes. */
  function WrittenPlans(fs: Folders, files: seq<Name>, faults: map<Name, Fault>): set<Name> {
    set f | f in files && Writes(fs, faults, f) :: PlanName(f)
  }

  /** No later file of the batch writes a plan of the same name as file i. */
  predicate LastWriter(fs: Folders, files: seq<Name>, faults: map<Name, Fault>, i: nat)
    requires i < |files|
  {
    forall j :: i < j < |files| && Writes(fs, faults, files[j]) ==> PlanName(files[j]) != PlanName(files[i])
  }

  // ---------------------------------------------------------------------
  // Batch counts
  // ---------------------------------------------------------------------

  /** Every file of a batch either completes or fails, never both. */
  lemma {:induction false} CompletedPlusFailed(fs: Folders, dest: string, files: seq<Name>, faults: map<Name, Fault>)
    ensures |Completed(fs, dest, files, faults)| + |Failed(fs, dest, files, faults)| == |files|
    ensures forall f :: f in Completed(fs, dest, files, faults) <==> f in files && Completes(fs, dest, faults, f)
    decreases |files|
  {
    if files != [] {
      var init := files[..|files| - 1];
      CompletedPlusFailed(fs, dest, init, faults);
      assert files == init + [files[|files| - 1]];
    }
  }
  /** Which records a batch appends depends on the folders only through
      whether Logs exists. */
  lemma {:induction false} RecordsNeedOnlyLogs(fs: Folders, gs: Folders, files: seq<Name>, c: Clock, actionType: string, faults: map<Name, Fault>)
    requires LOGS in fs <==> LOGS in gs
    ensures Records(fs, files, c, actionType, faults) == Records(gs, files, c, actionType, faults)
    decreases |files|
  {
    if files != [] {
      RecordsNeedOnlyLogs(fs, gs, files[..|files| - 1], c, actionType, faults);
    }
  }

  /** The records of a batch are exactly those of the files that got as far
      as logging, all claiming success for the orchestrator. */
  lemma {:induction false} RecordsOfLogged(fs: Folders, files: seq<Name>, c: Clock, actionType: string, faults: map<Name, Fault>, f: Name)
    ensures LogEntry(c, actionType, f) in Records(fs, files, c, actionType, faults) <==> f in files && Logged(fs, faults, f)
    ensures forall rec :: rec in Records(fs, files, c, actionType, faults) ==>
      rec.actionType == actionType && rec.actor == "orchestrator" && rec.result == "success"
    decreases |files|
  {
    if files != [] {
      var init := files[..|files| - 1];
      RecordsOfLogged(fs, init, c, actionType, faults, f);
      assert files == init + [files[|files| - 1]];
    }
  }

  // ---------------------------------------------------------------------
  // process_approved
  // ---------------------------------------------------------------------

  /** One approved file's step, case by case: whether it read and logged
      the file, and whether it moved it. */
  lemma ExecuteStepCases(w: Vault, name: Name, c: Clock, fault: Fault)
    ensures var o := ExecuteStep(w, name, c, fault);
      var logged := name in Entries(w.folders, APPROVED) && fault != ReadFails && fault != LogFails && LOGS in w.folders;
      var moved := logged && fault != WriteFails && DONE in w.folders;
      && o.vault.log == w.log + (if logged then [LogEntry(c, "execute_approved", name)] else [])
      && (moved ==> o.vault.folders == w.folders[APPROVED := w.folders[APPROVED] - {name}][DONE := w.folders[DONE][name := w.folders[APPROVED][name]]])
      && (!moved ==> o.vault.folders == w.folders)
      && o.ok == (moved && fault != DashboardFails)
  {
  }

  /** The point form of the frame used by the proofs below: Needs_Action
      keeps its entries and Approved, Done and Logs exist afterwards exactly
      when they did before. */
  lemma {:induction false} ApprovedPassKeeps(v: Vault, files: seq<Name>, c: Clock, faults: map<Name, Fault>)
    ensures var r := ApprovedPass(v, files, c, faults).vault;
      && Entries(r.folders, NEEDS_ACTION) == Entries(v.folders, NEEDS_ACTION)
      && (APPROVED in r.folders <==> APPROVED in v.folders)
      && (DONE in r.folders <==> DONE in v.folders)
      && (LOGS in r.folders <==> LOGS in v.folders)
    decreases |files|
  {
    if files != [] {
      ApprovedPassKeeps(v, files[..|files| - 1], c, faults);
    }
  }

  /** A file the batch does not list stays in Approved, unchanged. */
  lemma {:induction false} ApprovedPassKeepsUnlisted(v: Vault, files: seq<Name>, c: Clock, faults: map<Name, Fault>, n: Name)
    requires n !in files
    ensures var r := ApprovedPass(v, files, c, faults).vault;
      && (n in Entries(r.folders, APPROVED) <==> n in Entries(v.folders, APPROVED))
      && (n in Entries(v.folders, APPROVED) ==> Entries(r.folders, APPROVED)[n] == Entries(v.folders, APPROVED)[n])
    decreases |files|
  {
    if files != [] {
      var init := files[..|files| - 1];
      var last := files[|files| - 1];
      assert n in files <== n in init;
      ApprovedPassKeepsUnlisted(v, init, c, faults, n);
      var w := ApprovedPass(v, init, c, faults).vault;
      ExecuteStepCases(w, last, c, FaultOf(faults, last));
    }
  }

  /** An Approved batch touches no folder but Approved and Done, and creates
      or removes no folder. (Its log records go to `log`, not to the Logs
      folder.) */
  lemma {:induction false} ApprovedPassFrame(v: Vault, files: seq<Name>, c: Clock, faults: map<Name, Fault>)
    ensures var r := ApprovedPass(v, files, c, faults).vault;
      && r.folders.Keys == v.folders.Keys
      && (forall k :: k in v.folders && k != APPROVED && k != DONE ==> r.folders[k] == v.folders[k])
    decreases |files|
  {
    if files != [] {
      ApprovedPassFrame(v, files[..|files| - 1], c, faults);
    }
  }

  /**
   * On a duplicate-free list of Approved files, the moved files leave
   * Approved and every other entry (the non-markdown ones included) stays,
   * unchanged.
   */
  lemma {:induction false} ApprovedPassSources(v: Vault, files: seq<Name>, c: Clock, faults: map<Name, Fault>)
    requires Distinct(files)
    requires forall f :: f in files ==> f in Entries(v.folders, APPROVED)
    ensures var r := ApprovedPass(v, files, c, faults).vault;
      && (forall n :: n in Entries(r.folders, APPROVED) <==>
            n in Entries(v.folders, APPROVED) && !(n in files && Moves(v.folders, faults, n)))
      && (forall n :: n in Entries(r.folders, APPROVED) ==> Entries(r.folders, APPROVED)[n] == Entries(v.folders, APPROVED)[n])
    decreases |files|
  {
    if files != [] {
      var init := files[..|files| - 1];
      var last := files[|files| - 1];
      assert files == init + [last];
      assert Distinct(init) && last !in init;
      ApprovedPassSources(v, init, c, faults);
      ApprovedPassKeepsUnlisted(v, init, c, faults, last);
      ApprovedPassKeeps(v, init, c, faults);
      ExecuteStepCases(ApprovedPass(v, init, c, faults).vault, last, c, FaultOf(faults, last));
    }
  }

  /**
   * On a duplicate-free list of Approved files, Done gains exactly the
   * moved files, each with the contents it had in Approved (replacing a
   * Done file of that name); every other Done entry is as it was.
   */
  lemma {:induction false} ApprovedPassDone(v: Vault, files: seq<Name>, c: Clock, faults: map<Name, Fault>)
    requires Distinct(files)
    requires forall f :: f in files ==> f in Entries(v.folders, APPROVED)
    ensures var r := ApprovedPass(v, files, c, faults).vault;
      && (forall n :: n in Entries(r.folders, DONE) <==>
            n in Entries(v.folders, DONE) || (n in files && Moves(v.folders, faults, n)))
      && (forall n :: n in files && Moves(v.folders, faults, n) ==>
            Entries(r.folders, DONE)[n] == Entries(v.folders, APPROVED)[n])
      && (forall n :: n in Entries(v.folders, DONE) && !(n in files && Moves(v.folders, faults, n)) ==>
            Entries(r.folders, DONE)[n] == Entries(v.folders, DONE)[n])
    decreases |files|
  {
    if files != [] {
      var init := files[..|files| - 1];
      var last := files[|files| - 1];
      assert files == init + [last];
      assert Distinct(init) && last !in init;
      ApprovedPassDone(v, init, c, faults);
      ApprovedPassKeepsUnlisted(v, init, c, faults, last);
      ApprovedPassKeeps(v, init, c, faults);
      var w := ApprovedPass(v, init, c, faults).vault;
      var fault := FaultOf(faults, last);
      assert ApprovedPass(v, files, c, faults).vault == ExecuteStep(w, last, c, fault).vault;
      assert last in Entries(w.folders, APPROVED);
      ExecuteStepCases(w, last, c, fault);
    }
  }

  /** The log grows by one `execute_approved` record per file that got as far as
      logging, in order. */
  lemma {:induction false} ApprovedPassLog(v: Vault, files: seq<Name>, c: Clock, faults: map<Name, Fault>)
    requires Distinct(files)
    requires forall f :: f in files ==> f in Entries(v.folders, APPROVED)
    ensures ApprovedPass(v, files, c, faults).vault.log == v.log + Records(v.folders, files, c, "execute_approved", faults)
    decreases |files|
  {
    if files != [] {
      var init := files[..|files| - 1];
      var last := files[|files| - 1];
      assert files == init + [last];
      assert Distinct(init) && last !in init;
      ApprovedPassLog(v, init, c, faults);
      ApprovedPassKeepsUnlisted(v, init, c, faults, last);
      ApprovedPassKeeps(v, init, c, faults);
      var w := ApprovedPass(v, init, c, faults).vault;
      assert last in Entries(w.folders, APPROVED);
      ExecuteStepCases(w, last, c, FaultOf(faults, last));
      assert Records(v.folders, files, c, "execute_approved", faults)
          == Records(v.folders, init, c, "execute_approved", faults) + (if Logged(v.folders, faults, last) then [LogEntry(c, "execute_approved", last)] else []);
    }
  }

  /** The batch's count is the number of files whose step raised nothing. */
  lemma {:induction false} ApprovedPassCount(v: Vault, files: seq<Name>, c: Clock, faults: map<Name, Fault>)
    requires Distinct(files)
    requires forall f :: f in files ==> f in Entries(v.folders, APPROVED)
    ensures ApprovedPass(v, files, c, faults).processed == |Completed(v.folders, DONE, files, faults)|
    decreases |files|
  {
    if files != [] {
      var init := files[..|files| - 1];
      var last := files[|files| - 1];
      assert files == init + [last];
      assert Distinct(init) && last !in init;
      ApprovedPassCount(v, init, c, faults);
      ApprovedPassKeepsUnlisted(v, init, c, faults, last);
      ApprovedPassKeeps(v, init, c, faults);
      var w := ApprovedPass(v, init, c, faults).vault;
      assert last in Entries(w.folders, APPROVED);
      ExecuteStepCases(w, last, c, FaultOf(faults, last));
      assert Completed(v.folders, DONE, files, faults)
          == Completed(v.folders, DONE, init, faults) + (if Completes(v.folders, DONE, faults, last) then [last] else []);
    }
  }


  /** `process_approved` returns at most the number of markdown files in
      Approved, 0 when there are none, and exactly that number minus the
      files whose step raised. */
  lemma ApprovedCount(v: Vault, listing: seq<Name>, c: Clock, faults: map<Name, Fault>)
    requires Distinct(listing) && Elements(listing) == Entries(v.folders, APPROVED).Keys
    ensures var files := MdOnly(listing);
      var n := ApprovedPass(v, files, c, faults).processed;
      && |files| == |MdNames(Entries(v.folders, APPROVED))|
      && n <= |MdNames(Entries(v.folders, APPROVED))|
      && (MdNames(Entries(v.folders, APPROVED)) == {} ==> n == 0)
      && n == |files| - |Failed(v.folders, DONE, files, faults)|
  {
    var files := MdOnly(listing);
    assert Elements(files) == MdNames(Entries(v.folders, APPROVED));
    DistinctCard(files);
    ApprovedPassCount(v, files, c, faults);
    CompletedPlusFailed(v.folders, DONE, files, faults);
  }

  /**
   * A file whose rename failed (a fault, or no Done folder) still got its
   * `success` record: it stays in Approved and the new part of the log
   * holds an `execute_approved` record for it.
   */
  lemma FailedMoveStillLogged(v: Vault, listing: seq<Name>, c: Clock, faults: map<Name, Fault>, f: Name)
    requires Distinct(listing) && Elements(listing) == Entries(v.folders, APPROVED).Keys
    requires f in Entries(v.folders, APPROVED) && IsMd(f) && Logged(v.folders, faults, f) && !Moves(v.folders, faults, f)
    ensures var r := ApprovedPass(v, MdOnly(listing), c, faults).vault;
      && f in Entries(r.folders, APPROVED)
      && |v.log| <= |r.log|
      && LogEntry(c, "execute_approved", f) in r.log[|v.log|..]
      && LogEntry(c, "execute_approved", f).result == "success"
  {
    var files := MdOnly(listing);
    ApprovedPassSources(v, files, c, faults);
    ApprovedPassLog(v, files, c, faults);
    RecordsOfLogged(v.folders, files, c, "execute_approved", faults, f);
    var r := ApprovedPass(v, files, c, faults).vault;
    assert r.log[|v.log|..] == Records(v.folders, files, c, "execute_approved", faults);
  }

  /**
   * Per-file isolation: a markdown file in Approved ends up in Done and out
   * of Approved exactly when its own read, log append (into an existing Logs
   * folder) and rename succeed, whatever happens to the other files of the
   * batch.
   */
  lemma ApprovedIsolation(v: Vault, listing: seq<Name>, c: Clock, faults: map<Name, Fault>, f: Name)
    requires Distinct(listing) && Elements(listing) == Entries(v.folders, APPROVED).Keys
    requires f in MdNames(Entries(v.folders, APPROVED))
    ensures var r := ApprovedPass(v, MdOnly(listing), c, faults).vault;
      f in Entries(r.folders, DONE) && f !in Entries(r.folders, APPROVED)
      <==> (FaultOf(faults, f) == NoFault || FaultOf(faults, f) == DashboardFails) && LOGS in v.folders && DONE in v.folders
  {
    var files := MdOnly(listing);
    ApprovedPassSources(v, files, c, faults);
    ApprovedPassDone(v, files, c, faults);
  }

  // ---------------------------------------------------------------------
  // process_needs_action
  // ---------------------------------------------------------------------

  /** One Needs_Action file's step, case by case: whether it read and
      logged the file, and whether it wrote the plan. */
  lemma ProcessStepCases(w: Vault, name: Name, c: Clock, fault: Fault)
    ensures var o := ProcessStep(w, name, c, fault);
      var logged := name in Entries(w.folders, NEEDS_ACTION) && fault != ReadFails && fault != LogFails && LOGS in w.folders;
      var wrote := logged && fault != WriteFails && PLANS in w.folders;
      && o.vault.log == w.log + (if logged then [LogEntry(c, "process_file", name)] else [])
      && (wrote ==> o.vault.folders == w.folders[PLANS := w.folders[PLANS][PlanName(name) := PlanFile(c, name)]])
      && (!wrote ==> o.vault.folders == w.folders)
      && o.ok == (wrote && fault != DashboardFails)
  {
  }

  /** The point form of the frame used by the proofs below: Needs_Action
      and Approved keep their entries and Plans and Logs exist afterwards
      exactly when they did before. */
  lemma {:induction false} NeedsActionPassKeeps(v: Vault, files: seq<Name>, c: Clock, faults: map<Name, Fault>)
    ensures var r := NeedsActionPass(v, files, c, faults).vault;
      && Entries(r.folders, NEEDS_ACTION) == Entries(v.folders, NEEDS_ACTION)
      && Entries(r.folders, APPROVED) == Entries(v.folders, APPROVED)
      && (PLANS in r.folders <==> PLANS in v.folders)
      && (LOGS in r.folders <==> LOGS in v.folders)
    decreases |files|
  {
    if files != [] {
      NeedsActionPassKeeps(v, files[..|files| - 1], c, faults);
    }
  }

  /** A Needs_Action batch touches no folder but Plans (so the action files
      themselves stay where they are), and creates or removes no folder.
      (Its log records go to `log`, not to the Logs folder.) */
  lemma {:induction false} NeedsActionPassFrame(v: Vault, files: seq<Name>, c: Clock, faults: map<Name, Fault>)
    ensures var r := NeedsActionPass(v, files, c, faults).vault;
      && r.folders.Keys == v.folders.Keys
      && (forall k :: k in v.folders && k != PLANS ==> r.folders[k] == v.folders[k])
    decreases |files|
  {
    if files != [] {
      NeedsActionPassFrame(v, files[..|files| - 1], c, faults);
    }
  }

  /**
   * Plans gains exactly the plans written; every plan no file of the batch
   * wrote is as it was.
   */
  lemma {:induction false} NeedsActionPassPlans(v: Vault, files: seq<Name>, c: Clock, faults: map<Name, Fault>)
    requires forall f :: f in files ==> f in Entries(v.folders, NEEDS_ACTION)
    ensures var r := NeedsActionPass(v, files, c, faults).vault;
      && (forall p :: p in Entries(r.folders, PLANS) <==> p in Entries(v.folders, PLANS) || p in WrittenPlans(v.folders, files, faults))
      && (forall p :: p in Entries(v.folders, PLANS) && p !in WrittenPlans(v.folders, files, faults) ==>
            Entries(r.folders, PLANS)[p] == Entries(v.folders, PLANS)[p])
    decreases |files|
  {
    if files != [] {
      var init := files[..|files| - 1];
      var last := files[|files| - 1];
      assert files == init + [last];
      NeedsActionPassPlans(v, init, c, faults);
      NeedsActionPassKeeps(v, init, c, faults);
      assert WrittenPlans(v.folders, files, faults)
          == WrittenPlans(v.folders, init, faults) + (if Writes(v.folders, faults, last) then {PlanName(last)} else {});
    }
  }

  /** A plan holds the template of the last file of the batch that wrote
      it. */
  lemma {:induction false} NeedsActionPassLastWriter(v: Vault, files: seq<Name>, c: Clock, faults: map<Name, Fault>, i: nat)
    requires forall f :: f in files ==> f in Entries(v.folders, NEEDS_ACTION)
    requires i < |files| && Writes(v.folders, faults, files[i]) && LastWriter(v.folders, files, faults, i)
    ensures var r := NeedsActionPass(v, files, c, faults).vault;
      && PlanName(files[i]) in Entries(r.folders, PLANS)
      && Entries(r.folders, PLANS)[PlanName(files[i])] == PlanFile(c, files[i])
    decreases |files|
  {
    var init := files[..|files| - 1];
    var last := files[|files| - 1];
    assert files == init + [last];
    NeedsActionPassKeeps(v, init, c, faults);
    var w := NeedsActionPass(v, init, c, faults).vault;
    var fault := FaultOf(faults, last);
    assert last in Entries(w.folders, NEEDS_ACTION);
    ProcessStepCases(w, last, c, fault);
    assert NeedsActionPass(v, files, c, faults).vault == ProcessStep(w, last, c, fault).vault;
    if i < |init| {
      var p := PlanName(files[i]);
      assert files[i] == init[i];
      assert LastWriter(v.folders, init, faults, i);
      NeedsActionPassLastWriter(v, init, c, faults, i);
      assert PLANS in w.folders && p in w.folders[PLANS] && w.folders[PLANS][p] == PlanFile(c, files[i]);
      assert Writes(v.folders, faults, last) ==> PlanName(last) != p;
    }
  }

  /** The log grows by one `process_file` record per file that got as far as
      logging, in order. */
  lemma {:induction false} NeedsActionPassLog(v: Vault, files: seq<Name>, c: Clock, faults: map<Name, Fault>)
    requires forall f :: f in files ==> f in Entries(v.folders, NEEDS_ACTION)
    ensures NeedsActionPass(v, files, c, faults).vault.log == v.log + Records(v.folders, files, c, "process_file", faults)
    decreases |files|
  {
    if files != [] {
      var init := files[..|files| - 1];
      var last := files[|files| - 1];
      assert files == init + [last];
      NeedsActionPassLog(v, init, c, faults);
      NeedsActionPassKeeps(v, init, c, faults);
      var w := NeedsActionPass(v, init, c, faults).vault;
      assert last in Entries(w.folders, NEEDS_ACTION);
      ProcessStepCases(w, last, c, FaultOf(faults, last));
      assert Records(v.folders, files, c, "process_file", faults)
          == Records(v.folders, init, c, "process_file", faults) + (if Logged(v.folders, faults, last) then [LogEntry(c, "process_file", last)] else []);
    }
  }

  /** The batch's count is the number of files whose step raised nothing. */
  lemma {:induction false} NeedsActionPassCount(v: Vault, files: seq<Name>, c: Clock, faults: map<Name, Fault>)
    requires forall f :: f in files ==> f in Entries(v.folders, NEEDS_ACTION)
    ensures NeedsActionPass(v, files, c, faults).processed == |Completed(v.folders, PLANS, files, faults)|
    decreases |files|
  {
    if files != [] {
      var init := files[..|files| - 1];
      var last := files[|files| - 1];
      assert files == init + [last];
      NeedsActionPassCount(v, init, c, faults);
      NeedsActionPassKeeps(v, init, c, faults);
      var w := NeedsActionPass(v, init, c, faults).vault;
      assert last in Entries(w.folders, NEEDS_ACTION);
      ProcessStepCases(w, last, c, FaultOf(faults, last));
      assert Completed(v.folders, PLANS, files, faults)
          == Completed(v.folders, PLANS, init, faults) + (if Completes(v.folders, PLANS, faults, last) then [last] else []);
    }
  }


  /**
   * `process_needs_action` never removes or moves anything: Needs_Action
   * is the same before and after, and so is every folder but Plans. Its
   * count is the number of markdown files minus those whose step raised.
   */
  lemma NeedsActionKeepsSources(v: Vault, listing: seq<Name>, c: Clock, faults: map<Name, Fault>)
    requires Distinct(listing) && Elements(listing) == Entries(v.folders, NEEDS_ACTION).Keys
    ensures var t := NeedsActionPass(v, MdOnly(listing), c, faults);
      && Entries(t.vault.folders, NEEDS_ACTION) == Entries(v.folders, NEEDS_ACTION)
      && t.vault.folders.Keys == v.folders.Keys
      && (forall k :: k in v.folders && k != PLANS ==> t.vault.folders[k] == v.folders[k])
      && t.processed <= |MdNames(Entries(v.folders, NEEDS_ACTION))|
      && t.processed == |MdOnly(listing)| - |Failed(v.folders, PLANS, MdOnly(listing), faults)|
  {
    var files := MdOnly(listing);
    assert Elements(files) == MdNames(Entries(v.folders, NEEDS_ACTION));
    DistinctCard(files);
    NeedsActionPassFrame(v, files, c, faults);
    NeedsActionPassCount(v, files, c, faults);
    CompletedPlusFailed(v.folders, PLANS, files, faults);
  }

  /**
   * A file whose plan write failed (a fault, or no Plans folder) still got
   * its `success` record: the new part of the log holds a `process_file`
   * record for it.
   */
  lemma FailedWriteStillLogged(v: Vault, listing: seq<Name>, c: Clock, faults: map<Name, Fault>, f: Name)
    requires Distinct(listing) && Elements(listing) == Entries(v.folders, NEEDS_ACTION).Keys
    requires f in Entries(v.folders, NEEDS_ACTION) && IsMd(f) && Logged(v.folders, faults, f) && !Writes(v.folders, faults, f)
    ensures var r := NeedsActionPass(v, MdOnly(listing), c, faults).vault;
      && |v.log| <= |r.log|
      && LogEntry(c, "process_file", f) in r.log[|v.log|..]
      && LogEntry(c, "process_file", f).result == "success"
  {
    var files := MdOnly(listing);
    NeedsActionPassLog(v, files, c, faults);
    RecordsOfLogged(v.folders, files, c, "process_file", faults, f);
    var r := NeedsActionPass(v, files, c, faults).vault;
    assert r.log[|v.log|..] == Records(v.folders, files, c, "process_file", faults);
  }

  /**
   * With distinct plan names (every pair of listed files except ".md" and
   * ".md.md"), every listed markdown file whose write succeeded has its
   * plan Plans/PLAN_<stem>.md, replacing whatever plan had that name.
   */
  lemma NeedsActionWritesPlans(v: Vault, listing: seq<Name>, c: Clock, faults: map<Name, Fault>, f: Name)
    requires Distinct(listing) && Elements(listing) == Entries(v.folders, NEEDS_ACTION).Keys
    requires !(".md" in listing && ".md.md" in listing)
    requires f in Entries(v.folders, NEEDS_ACTION) && IsMd(f) && Writes(v.folders, faults, f)
    ensures var r := NeedsActionPass(v, MdOnly(listing), c, faults).vault;
      PlanName(f) in Entries(r.folders, PLANS) && Entries(r.folders, PLANS)[PlanName(f)] == PlanFile(c, f)
  {
    var files := MdOnly(listing);
    var i :| 0 <= i < |files| && files[i] == f;
    forall j | i < j < |files| && Writes(v.folders, faults, files[j])
      ensures PlanName(files[j]) != PlanName(files[i])
    {
      PlanNameCollision(files[j], files[i]);
    }
    assert LastWriter(v.folders, files, faults, i);
    NeedsActionPassLastWriter(v, files, c, faults, i);
  }

  // ---------------------------------------------------------------------
  // Plan template
  // ---------------------------------------------------------------------

  lemma NoBreakConcat(a: string, b: string)
    requires NoLineBreak(a) && NoLineBreak(b)
    ensures NoLineBreak(a + b)
  {
    assert forall i :: 0 <= i < |a + b| ==> (a + b)[i] == if i < |a| then a[i] else b[i - |a|];
  }

  /** No line of a plan holds a line break when the file name and the time
      hold none. */
  lemma PlanLinesNoBreaks(c: Clock, name: Name)
    requires NoLineBreak(name) && NoLineBreak(c.iso)
    ensures var lines := PlanLines(c, name);
      forall i :: 0 <= i < |lines| ==> NoLineBreak(lines[i])
  {
    var stem := Stem(name);
    assert NoLineBreak(stem) by {
      assert stem == name || stem == name[..LastDot(name)];
    }
    NoBreakConcat("created: ", c.iso);
    NoBreakConcat("source_file: ", name);
    NoBreakConcat("# Action Plan: ", stem);
  }

  /** Splitting a generated plan's text gives back its lines when the file
      name and the time hold no line break. */
  lemma PlanLinesRoundTrip(c: Clock, name: Name)
    requires NoLineBreak(name) && NoLineBreak(c.iso)
    ensures SplitLines(PlanFile(c, name).text) == PlanLines(c, name)
  {
    var lines := PlanLines(c, name);
    PlanLinesNoBreaks(c, name);
    assert lines[|lines| - 1] != "" by {
      assert |lines[|lines| - 1]| >= |"# Action Plan: "|;
    }
    SplitJoin(lines);
  }

  /** `FieldIn` finds the first line, before any "---", that starts with
      the prefix. */
  lemma {:induction false} FieldAt(lines: seq<string>, prefix: string, k: nat)
    requires k < |lines| && lines[k] != "---" && IsPrefix(prefix, lines[k])
    requires forall j :: 0 <= j < k ==> lines[j] != "---" && !IsPrefix(prefix, lines[j])
    ensures FieldIn(lines, prefix) == Some(lines[k][|prefix|..])
    decreases k
  {
    if k > 0 {
      FieldAt(lines[1..], prefix, k - 1);
    }
  }

  lemma NotPrefix(prefix: string, s: string, j: nat)
    requires j < |prefix| && j < |s| && prefix[j] != s[j]
    ensures !IsPrefix(prefix, s)
  {
  }

  /** The front matter lines of a plan, read field by field. */
  lemma PlanCreatedField(c: Clock, name: Name)
    ensures FieldIn(PlanLines(c, name)[1..], "created: ") == Some(c.iso)
  {
    var body := PlanLines(c, name)[1..];
    assert body[0] == "created: " + c.iso;
    assert body[0][|"created: "|..] == c.iso;
    FieldAt(body, "created: ", 0);
  }

  lemma PlanStatusField(c: Clock, name: Name)
    ensures FieldIn(PlanLines(c, name)[1..], "status: ") == Some("pending")
  {
    var body := PlanLines(c, name)[1..];
    assert body[0] == "created: " + c.iso && body[0][0] == 'c';
    assert body[1] == "status: pending";
    NotPrefix("status: ", body[0], 0);
    FieldAt(body, "status: ", 1);
  }

  lemma PlanSourceField(c: Clock, name: Name)
    ensures FieldIn(PlanLines(c, name)[1..], "source_file: ") == Some(name)
  {
    var body := PlanLines(c, name)[1..];
    assert body[0] == "created: " + c.iso && body[0][0] == 'c';
    assert body[1] == "status: pending" && body[1][1] == 't';
    assert body[2] == "source_file: " + name;
    assert body[2][|"source_file: "|..] == name;
    NotPrefix("source_file: ", body[0], 0);
    NotPrefix("source_file: ", body[1], 1);
    FieldAt(body, "source_file: ", 2);
  }

  lemma PlanTypeField(c: Clock, name: Name)
    ensures FieldIn(PlanLines(c, name)[1..], "type: ") == Some("action_plan")
  {
    var body := PlanLines(c, name)[1..];
    assert body[0] == "created: " + c.iso && body[0][0] == 'c';
    assert body[1] == "status: pending" && body[1][0] == 's';
    assert body[2] == "source_file: " + name && body[2][0] == 's';
    assert body[3] == "type: action_plan";
    NotPrefix("type: ", body[0], 0);
    NotPrefix("type: ", body[1], 0);
    NotPrefix("type: ", body[2], 0);
    FieldAt(body, "type: ", 3);
  }

  /**
   * A generated plan's front matter reads back as `status: pending`,
   * `source_file: <file name>`, `type: action_plan` and `created: <time>`,
   * provided the file name and the time hold no line break.
   */
  lemma PlanFrontMatter(c: Clock, name: Name)
    requires NoLineBreak(name) && NoLineBreak(c.iso)
    ensures var text := PlanFile(c, name).text;
      && FrontMatterField(text, "status") == Some("pending")
      && FrontMatterField(text, "source_file") == Some(name)
      && FrontMatterField(text, "type") == Some("action_plan")
      && FrontMatterField(text, "created") == Some(c.iso)
  {
    var text := PlanFile(c, name).text;
    var lines := PlanLines(c, name);
    PlanLinesRoundTrip(c, name);
    PlanCreatedField(c, name);
    PlanStatusField(c, name);
    PlanSourceField(c, name);
    PlanTypeField(c, name);
    assert SplitLines(text) == lines && lines[0] == "---";
    assert "status" + ": " == "status: ";
    assert "source_file" + ": " == "source_file: ";
    assert "type" + ": " == "type: ";
    assert "created" + ": " == "created: ";
  }

  // ---------------------------------------------------------------------
  // Dashboard and run_once
  // ---------------------------------------------------------------------

  /**
   * The dashboard's counts: "Awaiting Approval" counts the markdown files
   * of Approved and ignores Pending_Approval (replacing or adding that
   * folder changes nothing), a missing Inbox counts 0, and "Completed
   * Today" counts only markdown files of Done.
   */
  lemma DashboardCounts(fs: Folders, today: int, pending: Folder)
    ensures DashboardOf(fs[PENDING_APPROVAL := pending], today) == DashboardOf(fs, today)
    ensures INBOX !in fs ==> DashboardOf(fs, today).inbox == 0
    ensures DashboardOf(fs, today).pending <= |Entries(fs, APPROVED)|
    ensures DashboardOf(fs, today).doneToday <= |MdNames(Entries(fs, DONE))|
  {
    var fs' := fs[PENDING_APPROVAL := pending];
    assert Entries(fs', NEEDS_ACTION) == Entries(fs, NEEDS_ACTION);
    assert Entries(fs', APPROVED) == Entries(fs, APPROVED);
    assert Entries(fs', DONE) == Entries(fs, DONE);
    assert DoneToday(fs', today) == DoneToday(fs, today);
    assert MdNames(Entries(fs, APPROVED)) <= Entries(fs, APPROVED).Keys;
    assert DoneToday(fs, today) <= MdNames(Entries(fs, DONE));
    SubsetCard(MdNames(Entries(fs, APPROVED)), Entries(fs, APPROVED).Keys);
    SubsetCard(DoneToday(fs, today), MdNames(Entries(fs, DONE)));
  }

  /**
   * `run_once`'s log: the approved batch's records followed by the
   * Needs_Action batch's; when the last dashboard write succeeds, the
   * dashboard shows the counts of the final folders.
   */
  lemma CycleLog(v: Vault, approvedListing: seq<Name>, needsListing: seq<Name>, c: Clock,
                 approvedFaults: map<Name, Fault>, needsFaults: map<Name, Fault>, writable: bool)
    requires Distinct(approvedListing) && Elements(approvedListing) == Entries(v.folders, APPROVED).Keys
    requires Distinct(needsListing) && Elements(needsListing) == Entries(v.folders, NEEDS_ACTION).Keys
    ensures var r := Cycle(v, approvedListing, needsListing, c, approvedFaults, needsFaults, writable);
      && r.vault.log == v.log + Records(v.folders, MdOnly(approvedListing), c, "execute_approved", approvedFaults)
                              + Records(v.folders, MdOnly(needsListing), c, "process_file", needsFaults)
      && r.ok == writable
      && (writable ==> r.vault.dashboard == Some(DashboardOf(r.vault.folders, c.day)))
  {
    var aFiles := MdOnly(approvedListing);
    var nFiles := MdOnly(needsListing);
    ApprovedPassKeeps(v, aFiles, c, approvedFaults);
    ApprovedPassLog(v, aFiles, c, approvedFaults);
    var a := ApprovedPass(v, aFiles, c, approvedFaults).vault;
    assert Entries(a.folders, NEEDS_ACTION) == Entries(v.folders, NEEDS_ACTION);
    NeedsActionPassLog(a, nFiles, c, needsFaults);
    RecordsNeedOnlyLogs(a.folders, v.folders, nFiles, c, "process_file", needsFaults);
  }

  /** Appending a run of `execute_approved` records and then a run of
      `process_file` records puts no `process_file` record before an
      `execute_approved` one. */
  lemma ApprovedRecordsFirst(base: seq<LogRecord>, ra: seq<LogRecord>, rn: seq<LogRecord>)
    requires forall rec :: rec in ra ==> rec.actionType == "execute_approved"
    requires forall rec :: rec in rn ==> rec.actionType == "process_file"
    ensures var log := base + ra + rn;
      forall i, j :: |base| <= i < j < |log| && log[j].actionType == "execute_approved" ==>
        log[i].actionType == "execute_approved"
  {
    var log := base + ra + rn;
    forall k | |base| <= k < |base| + |ra|
      ensures log[k].actionType == "execute_approved"
    {
      assert log[k] == ra[k - |base|];
    }
    forall k | |base| + |ra| <= k < |log|
      ensures log[k].actionType == "process_file"
    {
      assert log[k] == rn[k - |base| - |ra|];
    }
  }

  /**
   * `run_once` processes Approved before Needs_Action: no `process_file`
   * record of the cycle comes before one of its `execute_approved` records.
   */
  lemma CycleOrder(v: Vault, approvedListing: seq<Name>, needsListing: seq<Name>, c: Clock,
                   approvedFaults: map<Name, Fault>, needsFaults: map<Name, Fault>, writable: bool)
    requires Distinct(approvedListing) && Elements(approvedListing) == Entries(v.folders, APPROVED).Keys
    requires Distinct(needsListing) && Elements(needsListing) == Entries(v.folders, NEEDS_ACTION).Keys
    ensures var log := Cycle(v, approvedListing, needsListing, c, approvedFaults, needsFaults, writable).vault.log;
      forall i, j :: |v.log| <= i < j < |log| && log[j].actionType == "execute_approved" ==>
        log[i].actionType == "execute_approved"
  {
    CycleLog(v, approvedListing, needsListing, c, approvedFaults, needsFaults, writable);
    RecordsOfLogged(v.folders, MdOnly(approvedListing), c, "execute_approved", approvedFaults, "");
    RecordsOfLogged(v.folders, MdOnly(needsListing), c, "process_file", needsFaults, "");
    ApprovedRecordsFirst(v.log, Records(v.folders, MdOnly(approvedListing), c, "execute_approved", approvedFaults),
                         Records(v.folders, MdOnly(needsListing), c, "process_file", needsFaults));
  }

  /**
   * When every markdown file in Approved is moved (no read, log or rename
   * fails and Done exists), the dashboard written at the end of `run_once`
   * shows nothing awaiting approval and the Needs_Action count as it was.
   */
  lemma CycleClearsApproved(v: Vault, approvedListing: seq<Name>, needsListing: seq<Name>, c: Clock,
                            approvedFaults: map<Name, Fault>, needsFaults: map<Name, Fault>)
    requires Distinct(approvedListing) && Elements(approvedListing) == Entries(v.folders, APPROVED).Keys
    requires Distinct(needsListing) && Elements(needsListing) == Entries(v.folders, NEEDS_ACTION).Keys
    requires forall f :: f in MdNames(Entries(v.folders, APPROVED)) ==> Moves(v.folders, approvedFaults, f)
    ensures var r := Cycle(v, approvedListing, needsListing, c, approvedFaults, needsFaults, true);
      && r.vault.dashboard.Some?
      && r.vault.dashboard.value.pending == 0
      && r.vault.dashboard.value.needsAction == |MdNames(Entries(v.folders, NEEDS_ACTION))|
  {
    var aFiles := MdOnly(approvedListing);
    var nFiles := MdOnly(needsListing);
    ApprovedPassKeeps(v, aFiles, c, approvedFaults);
    ApprovedPassSources(v, aFiles, c, approvedFaults);
    var a := ApprovedPass(v, aFiles, c, approvedFaults).vault;
    assert Entries(a.folders, NEEDS_ACTION) == Entries(v.folders, NEEDS_ACTION);
    assert MdNames(Entries(a.folders, APPROVED)) == {};
    NeedsActionPassKeeps(a, nFiles, c, needsFaults);
    var n := NeedsActionPass(a, nFiles, c, needsFaults).vault;
    assert Entries(n.folders, APPROVED) == Entries(a.folders, APPROVED);
    assert Entries(n.folders, NEEDS_ACTION) == Entries(v.folders, NEEDS_ACTION);
  }
}
