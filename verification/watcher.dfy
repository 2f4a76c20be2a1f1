/**
 * The reusable part of every watcher (watchers/base_watcher.py): the file
 * name sanitiser, the persistence of the processed-id set through a state
 * file under Logs/, and one tick of the polling loop with per-item error
 * isolation. The concrete `check_for_updates` and `create_action_file` of a
 * subclass are not part of this model; their outcomes are inputs.
 */
module Watcher {
  import opened Lines
  import opened Seqs

  // ---------------------------------------------------------------------
  // sanitize_filename
  // ---------------------------------------------------------------------

  /** The characters the sanitiser replaces, in the order it replaces them.
      The question mark here is the full-width U+FF1F, not ASCII '?'. */
  const INVALID_CHARS: string := "<>:\"/\\|\U{FF1F}*"

  const FULLWIDTH_QUESTION: char := '\U{FF1F}'

  /** Python's `str.isspace()`: the characters `str.strip()` removes. */
  predicate IsSpace(c: char) {
    ('\t' <= c <= '\r') || ('\U{1C}' <= c <= ' ')
    || c == '\U{85}' || c == '\U{A0}' || c == '\U{1680}'
    || ('\U{2000}' <= c <= '\U{200A}')
    || c == '\U{2028}' || c == '\U{2029}' || c == '\U{202F}'
    || c == '\U{205F}' || c == '\U{3000}'
  }

  /** `s.replace(target, replacement)` for single characters: every
      occurrence, in place. */
  function Replace(s: string, target: char, replacement: char): (r: string)
    ensures |r| == |s|
  {
    seq(|s|, i requires 0 <= i < |s| => if s[i] == target then replacement else s[i])
  }

  /** The sanitiser's `for char in invalid_chars: name = name.replace(char, '_')`. */
  function ReplaceEach(s: string, chars: string): string
    decreases |chars|
  {
    if chars == [] then s
    else ReplaceEach(Replace(s, chars[0], '_'), chars[1..])
  }

  /** The number of whitespace characters `strip()` removes at the front. */
  function LeadingSpaces(s: string): (n: nat)
    ensures n <= |s|
    ensures forall i :: 0 <= i < n ==> IsSpace(s[i])
    ensures n < |s| ==> !IsSpace(s[n])
  {
    if s != [] && IsSpace(s[0]) then 1 + LeadingSpaces(s[1..]) else 0
  }

  /** The number of whitespace characters `strip()` removes at the back. */
  function TrailingSpaces(s: string): (n: nat)
    ensures n <= |s|
    ensures forall i :: |s| - n <= i < |s| ==> IsSpace(s[i])
    ensures n < |s| ==> !IsSpace(s[|s| - 1 - n])
  {
    if s != [] && IsSpace(s[|s| - 1]) then 1 + TrailingSpaces(s[..|s| - 1]) else 0
  }

  /** `s.strip()`: the piece between the leading and the trailing whitespace. */
  function Strip(s: string): string {
    var front := LeadingSpaces(s);
    s[front..|s| - TrailingSpaces(s[front..])]
  }

  /** `BaseWatcher.sanitize_filename` */
  function SanitizeFilename(name: string): string {
    Strip(ReplaceEach(name, INVALID_CHARS))
  }

  /** What the replacement loop does to one position. */
  function SanitizedChar(c: char): char {
    if c in INVALID_CHARS then '_' else c
  }

  /**
   * The replacement loop, whatever the list of characters (as long as it does
   * not hold '_'), keeps the length and rewrites exactly the listed
   * characters to '_', position by position.
   */
  lemma {:induction false} ReplaceEachPositionwise(s: string, chars: string)
    requires '_' !in chars
    ensures |ReplaceEach(s, chars)| == |s|
    ensures forall i :: 0 <= i < |s| ==>
      ReplaceEach(s, chars)[i] == (if s[i] in chars then '_' else s[i])
    decreases |chars|
  {
    if chars != [] {
      var t := Replace(s, chars[0], '_');
      ReplaceEachPositionwise(t, chars[1..]);
      forall i | 0 <= i < |s|
        ensures ReplaceEach(s, chars)[i] == (if s[i] in chars then '_' else s[i])
      {
        assert s[i] in chars <==> s[i] == chars[0] || s[i] in chars[1..] by {
          assert chars == [chars[0]] + chars[1..];
        }
      }
    }
  }

  /** Before stripping, the sanitiser's string is the input with each
      listed character turned into '_' and every other character in place. */
  lemma SanitizeBeforeStrip(name: string)
    ensures |ReplaceEach(name, INVALID_CHARS)| == |name|
    ensures forall i :: 0 <= i < |name| ==>
      ReplaceEach(name, INVALID_CHARS)[i] == SanitizedChar(name[i])
  {
    ReplaceEachPositionwise(name, INVALID_CHARS);
  }

  /** `strip()` keeps a contiguous piece of its input and cuts off only
      whitespace: what it drops at the front is `LeadingSpaces`, and what
      it drops at the back is whitespace too. */
  lemma StripIsTrimmedSlice(s: string)
    ensures LeadingSpaces(s) + |Strip(s)| <= |s|
    ensures Strip(s) == s[LeadingSpaces(s)..LeadingSpaces(s) + |Strip(s)|]
    ensures forall i :: LeadingSpaces(s) + |Strip(s)| <= i < |s| ==> IsSpace(s[i])
  {
    var front := LeadingSpaces(s);
    var rest := s[front..];
    var back := TrailingSpaces(rest);
    forall i | front + |rest| - back <= i < |s|
      ensures IsSpace(s[i])
    {
      assert s[i] == rest[i - front];
    }
  }

  /** `strip()` leaves no whitespace at either end. */
  lemma StripTrimsEnds(s: string)
    ensures Strip(s) != [] ==> !IsSpace(Strip(s)[0]) && !IsSpace(Strip(s)[|Strip(s)| - 1])
  {
    var front := LeadingSpaces(s);
    var rest := s[front..];
    var back := TrailingSpaces(rest);
    var r := Strip(s);
    if r != [] {
      assert r[0] == s[front];
      assert r[|r| - 1] == rest[|rest| - 1 - back];
    }
  }

  /** Everything `strip()` keeps is a character of its input, and every
      character of the input that is not whitespace is kept. */
  lemma StripKeeps(s: string, c: char)
    ensures c in Strip(s) ==> c in s
    ensures c in s && !IsSpace(c) ==> c in Strip(s)
  {
    StripIsTrimmedSlice(s);
    var k := LeadingSpaces(s);
    var r := Strip(s);
    if c in r {
      var j :| 0 <= j < |r| && r[j] == c;
      assert s[k + j] == c;
    }
    if c in s && !IsSpace(c) {
      var j :| 0 <= j < |s| && s[j] == c;
      assert r[j - k] == c;
    }
  }

  /** The rewritten character is never one of the listed ones. */
  lemma SanitizedCharIsValid(c: char)
    ensures SanitizedChar(c) !in INVALID_CHARS
  {
  }

  /** No character the sanitiser lists is left in its result. */
  lemma SanitizeRemovesInvalid(name: string)
    ensures forall i :: 0 <= i < |SanitizeFilename(name)| ==> SanitizeFilename(name)[i] !in INVALID_CHARS
  {
    var t := ReplaceEach(name, INVALID_CHARS);
    SanitizeBeforeStrip(name);
    forall c | c in INVALID_CHARS
      ensures c !in t
    {
      if c in t {
        var j :| 0 <= j < |t| && t[j] == c;
        SanitizedCharIsValid(name[j]);
      }
    }
    forall i | 0 <= i < |Strip(t)|
      ensures Strip(t)[i] !in INVALID_CHARS
    {
      StripKeeps(t, Strip(t)[i]);
    }
  }

  /** The result has no whitespace at either end and is never longer than the name. */
  lemma SanitizeTrimmed(name: string)
    ensures |SanitizeFilename(name)| <= |name|
    ensures SanitizeFilename(name) != [] ==>
      !IsSpace(SanitizeFilename(name)[0])
      && !IsSpace(SanitizeFilename(name)[|SanitizeFilename(name)| - 1])
  {
    SanitizeBeforeStrip(name);
    StripIsTrimmedSlice(ReplaceEach(name, INVALID_CHARS));
    StripTrimsEnds(ReplaceEach(name, INVALID_CHARS));
  }

  /** A string with no listed character goes through the loop unchanged. */
  lemma ReplaceEachIdentity(s: string)
    requires forall i :: 0 <= i < |s| ==> s[i] !in INVALID_CHARS
    ensures ReplaceEach(s, INVALID_CHARS) == s
  {
    SanitizeBeforeStrip(s);
    var t := ReplaceEach(s, INVALID_CHARS);
    assert forall i :: 0 <= i < |s| ==> t[i] == s[i];
  }

  /** A string with no whitespace at either end is its own `strip()`. */
  lemma StripIdentity(s: string)
    requires s != [] ==> !IsSpace(s[0]) && !IsSpace(s[|s| - 1])
    ensures Strip(s) == s
  {
    assert LeadingSpaces(s) == 0;
    assert s[0..] == s;
  }

  /** Sanitising twice is the same as sanitising once. */
  lemma SanitizeIdempotent(name: string)
    ensures SanitizeFilename(SanitizeFilename(name)) == SanitizeFilename(name)
  {
    var s := SanitizeFilename(name);
    SanitizeRemovesInvalid(name);
    ReplaceEachIdentity(s);
    SanitizeTrimmed(name);
    StripIdentity(s);
  }

  /** The replacement loop keeps ASCII '?' where it is and leaves no
      full-width one. */
  lemma ReplaceEachQuestionMarks(name: string)
    ensures '?' in ReplaceEach(name, INVALID_CHARS) <==> '?' in name
    ensures FULLWIDTH_QUESTION !in ReplaceEach(name, INVALID_CHARS)
  {
    SanitizeBeforeStrip(name);
    var t := ReplaceEach(name, INVALID_CHARS);
    if '?' in t {
      var j :| 0 <= j < |t| && t[j] == '?';
      assert SanitizedChar(name[j]) == '?';
    }
    if '?' in name {
      var j :| 0 <= j < |name| && name[j] == '?';
      assert t[j] == SanitizedChar('?');
    }
    if FULLWIDTH_QUESTION in t {
      var j :| 0 <= j < |t| && t[j] == FULLWIDTH_QUESTION;
      SanitizedCharIsValid(name[j]);
    }
  }

  /**
   * ASCII '?' is not in the list, so it is kept exactly when the name has
   * one; only the full-width U+FF1F is removed.
   */
  lemma SanitizeQuestionMarks(name: string)
    ensures '?' in SanitizeFilename(name) <==> '?' in name
    ensures FULLWIDTH_QUESTION !in SanitizeFilename(name)
  {
    var t := ReplaceEach(name, INVALID_CHARS);
    ReplaceEachQuestionMarks(name);
    StripKeeps(t, '?');
    StripKeeps(t, FULLWIDTH_QUESTION);
  }

  // ---------------------------------------------------------------------
  // processed_ids persistence
  // ---------------------------------------------------------------------

  /** `order` is one iteration order of the set `ids`. */
  predicate Enumerates<T>(order: seq<T>, ids: set<T>) {
    Elements(order) == ids && |order| == |ids|
  }

  /** What `load_processed_ids` makes of a state file's text. */
  function LoadedIds(text: string): set<string> {
    Elements(SplitLines(text))
  }

  /** The ids that survive a save and a load. */
  predicate StorableId(id: string) {
    id != "" && NoLineBreak(id)
  }

  /**
   * Saving then loading restores the set, in whatever order the set was
   * iterated, provided every id is non-empty and holds no line break.
   */
  lemma SaveLoadRoundTrip(ids: set<string>, order: seq<string>)
    requires Enumerates(order, ids)
    requires forall id :: id in ids ==> StorableId(id)
    ensures LoadedIds(Join(order)) == ids
  {
    forall i | 0 <= i < |order| ensures NoLineBreak(order[i]) {
      assert order[i] in Elements(order);
    }
    if order != [] {
      assert order[|order| - 1] in Elements(order);
    }
    SplitJoin(order);
  }

  /** Whatever the state file holds, no loaded id has a line break: an id
      with one never survives a save and a load. */
  lemma UnstorableIdIsLost(text: string, id: string)
    requires !NoLineBreak(id)
    ensures id !in LoadedIds(text)
  {
    SplitLinesHaveNoBreaks(text);
  }

  /** For example, the id "a\nb" comes back as the two ids "a" and "b". */
  lemma LineBreakSplitsId()
    ensures LoadedIds(Join(["a\nb"])) == {"a", "b"}
  {
    var s := "a\nb";
    assert Join(["a\nb"]) == s;
    assert FirstBreak(s) == 1;
    assert s[..1] == "a" && s[2..] == "b";
    assert FirstBreak("b") == 1;
    assert SplitLines("a\nb") == ["a", "b"];
  }

  // ---------------------------------------------------------------------
  // one tick of the run loop
  // ---------------------------------------------------------------------

  /** What `check_for_updates` did in one tick. */
  datatype Poll<T> = CheckRaised | Found(items: seq<T>)

  /** What `create_action_file` did for one item. */
  datatype Creation = Created(path: string) | CreateRaised

  /** The action files created, in order, by a run of item attempts. */
  function CreatedPaths(results: seq<Creation>): seq<string>
    decreases |results|
  {
    if results == [] then []
    else
      var init := CreatedPaths(results[..|results| - 1]);
      match results[|results| - 1]
      case Created(p) => init + [p]
      case CreateRaised => init
  }

  /** The number of "Error creating action file" reports. */
  function CountRaised(results: seq<Creation>): nat
    decreases |results|
  {
    if results == [] then 0
    else CountRaised(results[..|results| - 1]) + (if results[|results| - 1].CreateRaised? then 1 else 0)
  }

  /** Every item is accounted for: created or reported, never skipped. */
  lemma {:induction false} EveryItemAttempted(results: seq<Creation>)
    ensures |CreatedPaths(results)| + CountRaised(results) == |results|
    decreases |results|
  {
    if results != [] {
      EveryItemAttempted(results[..|results| - 1]);
    }
  }

  /** A path is created exactly when some attempt created it, whatever the
      other attempts did. */
  lemma {:induction false} CreatedPathsMembers(results: seq<Creation>, p: string)
    ensures p in CreatedPaths(results) <==> exists j :: 0 <= j < |results| && results[j] == Created(p)
    decreases |results|
  {
    if results != [] {
      var init := results[..|results| - 1];
      CreatedPathsMembers(init, p);
      if exists j :: 0 <= j < |init| && init[j] == Created(p) {
        var j :| 0 <= j < |init| && init[j] == Created(p);
        assert results[j] == Created(p);
      }
      if exists j :: 0 <= j < |results| && results[j] == Created(p) {
        var j :| 0 <= j < |results| && results[j] == Created(p);
        if j < |init| {
          assert init[j] == Created(p);
        }
      }
    }
  }

  lemma {:induction false} CreatedPathsAppend(a: seq<Creation>, b: seq<Creation>)
    ensures CreatedPaths(a + b) == CreatedPaths(a) + CreatedPaths(b)
    decreases |b|
  {
    if b != [] {
      var b' := b[..|b| - 1];
      assert (a + b)[..|a + b| - 1] == a + b';
      CreatedPathsAppend(a, b');
    } else {
      assert a + b == a;
    }
  }

  /**
   * Per-item isolation: when item i's creation fails, the files created are
   * those of the items before it followed by those of the items after it.
   */
  lemma FailureIsIsolated(results: seq<Creation>, i: nat)
    requires i < |results|
    ensures CreatedPaths(results[i := CreateRaised])
         == CreatedPaths(results[..i]) + CreatedPaths(results[i + 1..])
  {
    var r := results[i := CreateRaised];
    assert r == results[..i] + [CreateRaised] + results[i + 1..];
    CreatedPathsAppend(results[..i] + [CreateRaised], results[i + 1..]);
    CreatedPathsAppend(results[..i], [CreateRaised]);
    assert CreatedPaths([CreateRaised]) == [];
  }

  /**
   * The watcher base class. `needsAction` is the set of entries of the
   * Needs_Action folder (where `create_action_file` writes) and
   * `stateFiles` the text files under Logs/ (where the processed ids live).
   */
  class BaseWatcher {
    var processedIds: set<string>
    var stateFiles: map<string, string>
    var needsAction: set<string>

    /** `__init__`: no id is processed yet; the folders are as found. */
    constructor (logs: map<string, string>, actionFiles: set<string>)
      ensures processedIds == {}
      ensures stateFiles == logs && needsAction == actionFiles
    {
      processedIds := {};
      stateFiles := logs;
      needsAction := actionFiles;
    }

    /** `load_processed_ids`: replaces the set by the state file's lines when
        the file exists and leaves it alone otherwise. A state file that
        exists but cannot be read (`readable` false) raises out of the call
        (`loaded` false) with the set unchanged. */
    method LoadProcessedIds(stateFile: string, readable: bool) returns (loaded: bool)
      modifies this`processedIds
      ensures loaded <==> stateFile !in stateFiles || readable
      ensures stateFile in stateFiles && readable ==> processedIds == LoadedIds(stateFiles[stateFile])
      ensures !(stateFile in stateFiles && readable) ==> processedIds == old(processedIds)
    {
      loaded := true;
      if stateFile in stateFiles {
        if readable {
          processedIds := Elements(SplitLines(stateFiles[stateFile]));
        } else {
          loaded := false;
        }
      }
    }

    /** `save_processed_ids`: writes the ids, in the set's iteration order
        `order`, one per line, replacing the file. */
    method SaveProcessedIds(stateFile: string, order: seq<string>)
      requires Enumerates(order, processedIds)
      modifies this`stateFiles
      ensures stateFiles == old(stateFiles)[stateFile := Join(order)]
    {
      stateFiles := stateFiles[stateFile := Join(order)];
    }

    /**
     * One iteration of `run` (without the sleep). Returns the paths created
     * and the number of errors reported; a failing check creates nothing and
     * reports one error, a failing item does not stop the later ones.
     */
    method RunIteration<T>(poll: Poll<T>, results: seq<Creation>) returns (created: seq<string>, errors: nat)
      requires poll.Found? ==> |results| == |poll.items|
      modifies this`needsAction
      ensures poll.CheckRaised? ==> created == [] && errors == 1 && needsAction == old(needsAction)
      ensures poll.Found? ==> created == CreatedPaths(results) && errors == CountRaised(results)
      ensures poll.Found? ==> |created| + errors == |poll.items|
      ensures needsAction == old(needsAction) + Elements(created)
    {
      created, errors := [], 0;
      match poll
      case CheckRaised =>
        errors := 1;
      case Found(items) =>
        var i := 0;
        while i < |items|
          invariant 0 <= i <= |items|
          invariant created == CreatedPaths(results[..i])
          invariant errors == CountRaised(results[..i])
          invariant needsAction == old(needsAction) + Elements(created)
        {
          assert results[..i + 1][..i] == results[..i];
          match results[i] {
            case Created(p) =>
              needsAction := needsAction + {p};
              created := created + [p];
            case CreateRaised =>
              errors := errors + 1;
          }
          i := i + 1;
        }
        assert results[..i] == results;
        EveryItemAttempted(results);
    }
  }
}
