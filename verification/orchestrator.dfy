/**
 * The orchestrator of watchers/orchestrator.py, as bookkeeping over the
 * vault's folders. The vault is a map from folder name to the files in it;
 * the action log (the JSON-lines files in Logs) is a sequence of records that only
 * grows; the dashboard is the last set of counts written to Dashboard.md.
 *
 * Each file operation of the source either succeeds or raises. Which one
 * raises is an input: a `Fault` per file name, naming the first step of that
 * file's processing that raises. Besides, a file that is not there cannot be
 * read, a record cannot be appended when the Logs folder is missing (opening
 * Logs/<date>.jsonl raises), a plan cannot be written when the Plans folder
 * is missing (the orchestrator never creates it) and a file cannot be moved
 * into a missing Done folder. The time of day is an input too (`Clock`).
 */
module Orchestration {
  import opened Seqs
  import opened Lines
  import opened Paths

  datatype Option<T> = None | Some(value: T)

  type Name = string

  /** A file: the day it was last modified and its text. */
  datatype File = File(modified: int, text: string)

  type Folder = map<Name, File>
  type Folders = map<string, Folder>

  const NEEDS_ACTION := "Needs_Action"
  const APPROVED := "Approved"
  const DONE := "Done"
  const PLANS := "Plans"
  const INBOX := "Inbox"
  const LOGS := "Logs"
  const PENDING_APPROVAL := "Pending_Approval"

  /** The folders `__init__` creates when they are missing, in its order. */
  const REQUIRED_FOLDERS: seq<string> := [NEEDS_ACTION, APPROVED, DONE, LOGS]

  /** `datetime.now()` for one tick: the calendar day and the ISO text. */
  datatype Clock = Clock(day: int, iso: string)

  /** One line of the JSON-lines action log. */
  datatype LogRecord = LogRecord(timestamp: string, actionType: string, actor: string, target: string, result: string)

  /** The counts shown on the dashboard. */
  datatype DashboardStats = DashboardStats(inbox: nat, needsAction: nat, pending: nat, doneToday: nat)

  datatype Vault = Vault(folders: Folders, log: seq<LogRecord>, dashboard: Option<DashboardStats>)

  /** The first step of one file's processing that raises, if any. `WriteFails`
      is the plan's `write_text` or the `rename` into Done. */
  datatype Fault = NoFault | ReadFails | LogFails | WriteFails | DashboardFails

  /** The state after one file's step and whether it raised nothing. */
  datatype Outcome = Outcome(vault: Vault, ok: bool)

  /** The state after a batch and the batch's `processed` counter. */
  datatype Tally = Tally(vault: Vault, processed: nat)

  /** The files of a folder; a missing folder globs as empty. */
  function Entries(fs: Folders, folder: string): Folder {
    if folder in fs then fs[folder] else map[]
  }

  /** The names `glob('*.md')` finds in a folder. */
  function MdNames(f: Folder): set<Name> {
    set n | n in f && IsMd(n)
  }

  /** The Done files `_is_today` accepts: modified on `today`. */
  function DoneToday(fs: Folders, today: int): set<Name> {
    set n | n in Entries(fs, DONE) && IsMd(n) && Entries(fs, DONE)[n].modified == today
  }

  /** The counts `update_dashboard` computes. "Awaiting Approval" counts the
      Approved folder, not Pending_Approval. */
  function DashboardOf(fs: Folders, today: int): DashboardStats {
    DashboardStats(
      inbox := if INBOX in fs then |fs[INBOX]| else 0,
      needsAction := |MdNames(Entries(fs, NEEDS_ACTION))|,
      pending := |MdNames(Entries(fs, APPROVED))|,
      doneToday := |DoneToday(fs, today)|)
  }

  /** `_log_action`'s record: every record claims success, whatever happens
      next. */
  function LogEntry(c: Clock, actionType: string, target: Name): LogRecord {
    LogRecord(c.iso, actionType, "orchestrator", target, "success")
  }

  /** The front matter and title of `_create_plan_template`; the literal
      body that follows is not modelled. */
  function PlanLines(c: Clock, name: Name): seq<string> {
    ["---",
     "created: " + c.iso,
     "status: pending",
     "source_file: " + name,
     "type: action_plan",
     "---",
     "",
     "# Action Plan: " + Stem(name)]
  }

  function PlanFile(c: Clock, name: Name): File {
    File(c.day, Join(PlanLines(c, name)))
  }

  /** `prefix` starts `s`. */
  predicate IsPrefix(prefix: string, s: string) {
    |prefix| <= |s| && s[..|prefix|] == prefix
  }

  /** The value of `key` in the front matter block of a document's text: the
      block opens with a "---" line and ends at the next one. */
  function FrontMatterField(text: string, key: string): Option<string> {
    var lines := SplitLines(text);
    if |lines| > 0 && lines[0] == "---" then FieldIn(lines[1..], key + ": ") else None
  }

  function FieldIn(lines: seq<string>, prefix: string): Option<string> {
    if lines == [] || lines[0] == "---" then None
    else if IsPrefix(prefix, lines[0]) then Some(lines[0][|prefix|..])
    else FieldIn(lines[1..], prefix)
  }

  /** The fault supplied for a file; files without one succeed throughout. */
  function FaultOf(faults: map<Name, Fault>, n: Name): Fault {
    if n in faults then faults[n] else NoFault
  }

  // ---------------------------------------------------------------------
  // One file at a time
  // ---------------------------------------------------------------------

  /** `update_dashboard`, when Dashboard.md can be written (`writable`). */
  function RefreshDashboard(v: Vault, c: Clock, writable: bool): Outcome {
    if writable then Outcome(v.(dashboard := Some(DashboardOf(v.folders, c.day))), true)
    else Outcome(v, false)
  }

  /** `_process_single_file`: read the action file, log, write
      Plans/PLAN_<stem>.md (replacing any plan of that name), refresh the
      dashboard. The action file itself stays where it is. */
  function ProcessStep(v: Vault, name: Name, c: Clock, fault: Fault): Outcome {
    if name !in Entries(v.folders, NEEDS_ACTION) || fault == ReadFails || fault == LogFails || LOGS !in v.folders then
      Outcome(v, false)
    else
      var logged := v.(log := v.log + [LogEntry(c, "process_file", name)]);
      if fault == WriteFails || PLANS !in v.folders then Outcome(logged, false)
      else
        var written := logged.(folders := v.folders[PLANS := v.folders[PLANS][PlanName(name) := PlanFile(c, name)]]);
        RefreshDashboard(written, c, fault != DashboardFails)
  }

  /** `_execute_approved_action`: read the approved file, log, rename it to
      Done/<same name> (replacing a Done file of that name), refresh the
      dashboard. */
  function ExecuteStep(v: Vault, name: Name, c: Clock, fault: Fault): Outcome {
    if name !in Entries(v.folders, APPROVED) || fault == ReadFails || fault == LogFails || LOGS !in v.folders then
      Outcome(v, false)
    else
      var logged := v.(log := v.log + [LogEntry(c, "execute_approved", name)]);
      if fault == WriteFails || DONE !in v.folders then Outcome(logged, false)
      else
        var file := v.folders[APPROVED][name];
        var moved := logged.(folders := v.folders[APPROVED := v.folders[APPROVED] - {name}][DONE := v.folders[DONE][name := file]]);
        RefreshDashboard(moved, c, fault != DashboardFails)
  }

  // ---------------------------------------------------------------------
  // The two batch loops and one cycle
  // ---------------------------------------------------------------------

  /** `process_needs_action` over the files `files`, in order: each file's
      step runs whatever the earlier ones did; the count grows by the steps
      that raised nothing. */
  function NeedsActionPass(v: Vault, files: seq<Name>, c: Clock, faults: map<Name, Fault>): Tally
    decreases |files|
  {
    if files == [] then Tally(v, 0)
    else
      var before := NeedsActionPass(v, files[..|files| - 1], c, faults);
      var last := files[|files| - 1];
      var step := ProcessStep(before.vault, last, c, FaultOf(faults, last));
      Tally(step.vault, if step.ok then before.processed + 1 else before.processed)
  }

  /** `process_approved` over the files `files`, in order. */
  function ApprovedPass(v: Vault, files: seq<Name>, c: Clock, faults: map<Name, Fault>): Tally
    decreases |files|
  {
    if files == [] then Tally(v, 0)
    else
      var before := ApprovedPass(v, files[..|files| - 1], c, faults);
      var last := files[|files| - 1];
      var step := ExecuteStep(before.vault, last, c, FaultOf(faults, last));
      Tally(step.vault, if step.ok then before.processed + 1 else before.processed)
  }

  /** `run_once`: the approved files first, then Needs_Action, then the
      dashboard. `approvedListing` and `needsListing` are the folders'
      directory listings; the last refresh raises unless `writable`. */
  function Cycle(v: Vault, approvedListing: seq<Name>, needsListing: seq<Name>, c: Clock,
                 approvedFaults: map<Name, Fault>, needsFaults: map<Name, Fault>, writable: bool): Outcome
  {
    var afterApproved := ApprovedPass(v, MdOnly(approvedListing), c, approvedFaults).vault;
    var afterNeeds := NeedsActionPass(afterApproved, MdOnly(needsListing), c, needsFaults).vault;
    RefreshDashboard(afterNeeds, c, writable)
  }

  // ---------------------------------------------------------------------
  // The orchestrator object
  // ---------------------------------------------------------------------

  /**
   * The orchestrator with the part of the file system it changes: the vault
   * folders, the action log and the dashboard.
   */
  class Orchestrator {
    var folders: Folders
    var log: seq<LogRecord>
    var dashboard: Option<DashboardStats>

    function State(): Vault
      reads this
    {
      Vault(folders, log, dashboard)
    }

    /** `__init__`: makes Needs_Action, Approved, Done and Logs when they are
        missing (`mkdir(exist_ok=True)`) and keeps every folder that exists. */
    constructor (fs: Folders, existingLog: seq<LogRecord>, existingDashboard: Option<DashboardStats>)
      ensures folders.Keys == fs.Keys + Elements(REQUIRED_FOLDERS)
      ensures forall k :: k in fs ==> folders[k] == fs[k]
      ensures forall k :: k in folders && k !in fs ==> folders[k] == map[]
      ensures log == existingLog && dashboard == existingDashboard
    {
      var made := fs;
      for i := 0 to |REQUIRED_FOLDERS|
        invariant made.Keys == fs.Keys + Elements(REQUIRED_FOLDERS[..i])
        invariant forall k :: k in fs ==> made[k] == fs[k]
        invariant forall k :: k in made && k !in fs ==> made[k] == map[]
      {
        assert REQUIRED_FOLDERS[..i + 1] == REQUIRED_FOLDERS[..i] + [REQUIRED_FOLDERS[i]];
        if REQUIRED_FOLDERS[i] !in made {
          made := made[REQUIRED_FOLDERS[i] := map[]];
        }
      }
      assert REQUIRED_FOLDERS[..|REQUIRED_FOLDERS|] == REQUIRED_FOLDERS;
      folders := made;
      log := existingLog;
      dashboard := existingDashboard;
    }

    /** `_log_action`: appends one record to the day's file under Logs;
        opening that file raises (`ok` false, nothing appended) when the
        Logs folder is missing. */
    method LogAction(c: Clock, actionType: string, target: Name) returns (ok: bool)
      modifies this`log
      ensures ok <==> LOGS in folders
      ensures log == if ok then old(log) + [LogEntry(c, actionType, target)] else old(log)
    {
      if LOGS !in folders {
        return false;
      }
      log := log + [LogEntry(c, actionType, target)];
      ok := true;
    }

    /** `update_dashboard`; `ok` is false when writing Dashboard.md raised. */
    method UpdateDashboard(c: Clock, writable: bool) returns (ok: bool)
      modifies this`dashboard
      ensures Outcome(State(), ok) == RefreshDashboard(old(State()), c, writable)
    {
      if !writable {
        return false;
      }
      dashboard := Some(DashboardOf(folders, c.day));
      ok := true;
    }

    /** `_process_single_file`; `ok` is false when it raised. */
    method ProcessSingleFile(name: Name, c: Clock, fault: Fault) returns (ok: bool)
      modifies this
      ensures Outcome(State(), ok) == ProcessStep(old(State()), name, c, fault)
    {
      if name !in Entries(folders, NEEDS_ACTION) || fault == ReadFails {
        return false;
      }
      if fault == LogFails {
        return false;
      }
      var logged := LogAction(c, "process_file", name);
      if !logged {
        return false;
      }
      if fault == WriteFails || PLANS !in folders {
        return false;
      }
      folders := folders[PLANS := folders[PLANS][PlanName(name) := PlanFile(c, name)]];
      ok := UpdateDashboard(c, fault != DashboardFails);
    }

    /** `_execute_approved_action`; `ok` is false when it raised. */
    method ExecuteApprovedAction(name: Name, c: Clock, fault: Fault) returns (ok: bool)
      modifies this
      ensures Outcome(State(), ok) == ExecuteStep(old(State()), name, c, fault)
    {
      if name !in Entries(folders, APPROVED) || fault == ReadFails {
        return false;
      }
      if fault == LogFails {
        return false;
      }
      var logged := LogAction(c, "execute_approved", name);
      if !logged {
        return false;
      }
      if fault == WriteFails || DONE !in folders {
        return false;
      }
      var file := folders[APPROVED][name];
      folders := folders[APPROVED := folders[APPROVED] - {name}][DONE := folders[DONE][name := file]];
      ok := UpdateDashboard(c, fault != DashboardFails);
    }

    /** `process_needs_action` over one directory listing of Needs_Action. */
    method ProcessNeedsAction(listing: seq<Name>, c: Clock, faults: map<Name, Fault>) returns (processed: nat)
      modifies this
      ensures Tally(State(), processed) == NeedsActionPass(old(State()), MdOnly(listing), c, faults)
    {
      var files := MdOnly(listing);
      if files == [] {
        return 0;
      }
      processed := 0;
      var i := 0;
      while i < |files|
        invariant 0 <= i <= |files|
        invariant Tally(State(), processed) == NeedsActionPass(old(State()), files[..i], c, faults)
      {
        assert files[..i + 1][..i] == files[..i];
        ghost var before := NeedsActionPass(old(State()), files[..i], c, faults);
        assert NeedsActionPass(old(State()), files[..i + 1], c, faults)
            == var step := ProcessStep(before.vault, files[i], c, FaultOf(faults, files[i]));
               Tally(step.vault, if step.ok then before.processed + 1 else before.processed);
        var ok := ProcessSingleFile(files[i], c, FaultOf(faults, files[i]));
        if ok {
          processed := processed + 1;
        }
        i := i + 1;
      }
      assert files[..i] == files;
    }

    /** `process_approved` over one directory listing of Approved. */
    method ProcessApproved(listing: seq<Name>, c: Clock, faults: map<Name, Fault>) returns (processed: nat)
      modifies this
      ensures Tally(State(), processed) == ApprovedPass(old(State()), MdOnly(listing), c, faults)
    {
      var files := MdOnly(listing);
      if files == [] {
        return 0;
      }
      processed := 0;
      var i := 0;
      while i < |files|
        invariant 0 <= i <= |files|
        invariant Tally(State(), processed) == ApprovedPass(old(State()), files[..i], c, faults)
      {
        assert files[..i + 1][..i] == files[..i];
        ghost var before := ApprovedPass(old(State()), files[..i], c, faults);
        assert ApprovedPass(old(State()), files[..i + 1], c, faults)
            == var step := ExecuteStep(before.vault, files[i], c, FaultOf(faults, files[i]));
               Tally(step.vault, if step.ok then before.processed + 1 else before.processed);
        var ok := ExecuteApprovedAction(files[i], c, FaultOf(faults, files[i]));
        if ok {
          processed := processed + 1;
        }
        i := i + 1;
      }
      assert files[..i] == files;
    }

    /** `run_once`; `ok` is false when the final dashboard write raised. */
    method RunOnce(approvedListing: seq<Name>, needsListing: seq<Name>, c: Clock,
                   approvedFaults: map<Name, Fault>, needsFaults: map<Name, Fault>, writable: bool)
      returns (ok: bool)
      modifies this
      ensures Outcome(State(), ok) == Cycle(old(State()), approvedListing, needsListing, c, approvedFaults, needsFaults, writable)
    {
      var _ := ProcessApproved(approvedListing, c, approvedFaults);
      var _ := ProcessNeedsAction(needsListing, c, needsFaults);
      ok := UpdateDashboard(c, writable);
    }
  }
}
