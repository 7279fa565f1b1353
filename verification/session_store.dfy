/**
  Session persistence: where sessions live under the agent's state directory,
  how a session and the "latest session" pointer are written (each through a
  temporary file that then replaces the target) and read back, and the
  background autosaver that keeps only the newest requested snapshot.

  The file system is a `FileStore` whose files hold either text or a saved
  session payload; the JSON encoding of the payload is not modelled.
 */
module SessionStore {
  import opened Options
  import opened Text
  import opened Messages
  import PosixPath

  // ---------------------------------------------------------------------------
  // Paths

  /** `$HOME/.agent`, the directory of persisted agent state. */
  function AgentStateDir(home: string): (r: string)
    ensures PosixPath.IsAbs(home) ==> PosixPath.IsAbs(r)
  {
    PosixPath.PathJoin(home, ".agent")
  }

  function SessionsDir(stateDir: string): string { stateDir + "/sessions" }

  function LatestPath(stateDir: string): string { stateDir + "/latest_session" }

  /** `sessions/<id>.json` under the state directory. */
  function SessionPath(stateDir: string, sessionId: string): string {
    SessionsDir(stateDir) + "/" + sessionId + ".json"
  }

  /** The temporary file a write goes through: the target's name followed by ".tmp". */
  function TmpPath(p: string): string { p + ".tmp" }

  /** The session file, the latest pointer and their temporary files are four different paths. */
  lemma PathsDistinct(stateDir: string, sessionId: string)
    ensures var s := SessionPath(stateDir, sessionId);
      var l := LatestPath(stateDir);
      |{s, TmpPath(s), l, TmpPath(l)}| == 4
  {
    var s := SessionPath(stateDir, sessionId);
    var l := LatestPath(stateDir);
    var k := |stateDir| + 1;
    assert s[k] == 's' && TmpPath(s)[k] == 's';
    assert l[k] == 'l' && TmpPath(l)[k] == 'l';
    assert |TmpPath(s)| != |s| && |TmpPath(l)| != |l|;
  }

  /** Different session ids have different session files. */
  lemma SessionPathInjective(stateDir: string, a: string, b: string)
    requires SessionPath(stateDir, a) == SessionPath(stateDir, b)
    ensures a == b
  {
    var prefix := SessionsDir(stateDir) + "/";
    var s := SessionPath(stateDir, a);
    assert |a| == |b|;
    assert a == s[|prefix|..|prefix| + |a|];
    assert b == s[|prefix|..|prefix| + |b|];
  }

  // ---------------------------------------------------------------------------
  // The store

  /** What a file holds: plain text, or a saved session payload (its id and messages). */
  datatype FileData = TextFile(text: string) | SessionFile(sessionId: string, messages: seq<Message>)

  /**
    The file system the session files live in. `failing` holds the paths a
    write or a rename onto raises for (a full disk, a missing permission).
   */
  class FileStore {
    var files: map<string, FileData>
    var failing: set<string>

    constructor(files0: map<string, FileData>, failing0: set<string>)
      ensures files == files0 && failing == failing0
    {
      files := files0;
      failing := failing0;
    }

    /** `path.write_text(...)`: creates or overwrites `path`. */
    method Write(path: string, data: FileData) returns (ok: bool)
      modifies this
      ensures failing == old(failing) && ok == (path !in failing)
      ensures files == if ok then old(files)[path := data] else old(files)
    {
      ok := path !in failing;
      if ok {
        files := files[path := data];
      }
    }

    /** `src.replace(dst)`: moves `src` onto `dst`, raising when `src` is missing or `dst` cannot be written. */
    method Replace(src: string, dst: string) returns (ok: bool)
      modifies this
      ensures failing == old(failing)
      ensures ok == (src in old(files) && dst !in failing)
      ensures files == if ok then (old(files) - {src})[dst := old(files)[src]] else old(files)
    {
      ok := src in files && dst !in failing;
      if ok {
        files := (files - {src})[dst := files[src]];
      }
    }
  }

  /** The files after a successful save of `messages` as session `sessionId`. */
  function Saved(files: map<string, FileData>, stateDir: string, sessionId: string, messages: seq<Message>): (r: map<string, FileData>)
    ensures var s := SessionPath(stateDir, sessionId);
      s in r && r[s] == SessionFile(sessionId, messages)
    ensures var l := LatestPath(stateDir);
      l in r && r[l] == TextFile(sessionId + "\n")
    ensures TmpPath(SessionPath(stateDir, sessionId)) !in r && TmpPath(LatestPath(stateDir)) !in r
    ensures forall p | p !in {SessionPath(stateDir, sessionId), LatestPath(stateDir), TmpPath(SessionPath(stateDir, sessionId)), TmpPath(LatestPath(stateDir))} ::
      (p in r <==> p in files) && (p in r ==> r[p] == files[p])
  {
    PathsDistinct(stateDir, sessionId);
    var s := SessionPath(stateDir, sessionId);
    var l := LatestPath(stateDir);
    (files - {TmpPath(s), TmpPath(l)})[s := SessionFile(sessionId, messages)][l := TextFile(sessionId + "\n")]
  }

  /** None of the four paths a save writes is failing. */
  predicate SaveSucceeds(failing: set<string>, stateDir: string, sessionId: string) {
    var s := SessionPath(stateDir, sessionId);
    var l := LatestPath(stateDir);
    TmpPath(s) !in failing && s !in failing && TmpPath(l) !in failing && l !in failing
  }

  /**
    The files after a save that stops at the first step that raises: the
    session's temporary write, its rename, the latest pointer's temporary
    write, then its rename. What the steps before did stays done.
   */
  function AfterSave(files: map<string, FileData>, failing: set<string>, stateDir: string, sessionId: string, messages: seq<Message>): (r: map<string, FileData>)
    ensures forall p | p !in {SessionPath(stateDir, sessionId), LatestPath(stateDir), TmpPath(SessionPath(stateDir, sessionId)), TmpPath(LatestPath(stateDir))} ::
      (p in r <==> p in files) && (p in r ==> r[p] == files[p])
  {
    PathsDistinct(stateDir, sessionId);
    var s := SessionPath(stateDir, sessionId);
    var l := LatestPath(stateDir);
    var session := SessionFile(sessionId, messages);
    if TmpPath(s) in failing then files
    else if s in failing then files[TmpPath(s) := session]
    else if TmpPath(l) in failing then (files - {TmpPath(s)})[s := session]
    else if l in failing then (files - {TmpPath(s)})[s := session][TmpPath(l) := TextFile(sessionId + "\n")]
    else Saved(files, stateDir, sessionId, messages)
  }

  /** When no step raises, the save completes. */
  lemma AfterSaveSucceeds(files: map<string, FileData>, failing: set<string>, stateDir: string, sessionId: string, messages: seq<Message>)
    requires SaveSucceeds(failing, stateDir, sessionId)
    ensures AfterSave(files, failing, stateDir, sessionId, messages) == Saved(files, stateDir, sessionId, messages)
  {
  }

  /** When the session's own write or rename raises, the session file and the latest pointer are as they were. */
  lemma AfterSaveSessionFails(files: map<string, FileData>, failing: set<string>, stateDir: string, sessionId: string, messages: seq<Message>)
    requires TmpPath(SessionPath(stateDir, sessionId)) in failing || SessionPath(stateDir, sessionId) in failing
    ensures var r := AfterSave(files, failing, stateDir, sessionId, messages);
      forall p | p in {SessionPath(stateDir, sessionId), LatestPath(stateDir)} ::
        (p in r <==> p in files) && (p in r ==> r[p] == files[p])
  {
    PathsDistinct(stateDir, sessionId);
  }

  /**
    When only the latest pointer's update raises, the session is saved and
    loads by its id, while the latest pointer still names what it named before.
   */
  lemma AfterSaveLatestFails(files: map<string, FileData>, failing: set<string>, stateDir: string, sessionId: string, messages: seq<Message>)
    requires TmpPath(SessionPath(stateDir, sessionId)) !in failing && SessionPath(stateDir, sessionId) !in failing
    requires TmpPath(LatestPath(stateDir)) in failing || LatestPath(stateDir) in failing
    ensures var r := AfterSave(files, failing, stateDir, sessionId, messages);
      && Load(r, stateDir, Some(sessionId)) == Success((sessionId, messages))
      && (LatestPath(stateDir) in r <==> LatestPath(stateDir) in files)
      && (LatestPath(stateDir) in r ==> r[LatestPath(stateDir)] == files[LatestPath(stateDir)])
  {
    PathsDistinct(stateDir, sessionId);
  }

  /**
    `save_messages`: writes the payload to `<id>.json.tmp` and moves it onto
    `<id>.json`, then writes `id + "\n"` to `latest_session.tmp` and moves it
    onto `latest_session`. `ok` is false when a step raised; the steps before
    it keep their effect.
   */
  method SaveMessages(store: FileStore, stateDir: string, sessionId: string, messages: seq<Message>) returns (ok: bool)
    modifies store
    ensures store.failing == old(store.failing)
    ensures ok == SaveSucceeds(store.failing, stateDir, sessionId)
    ensures store.files == AfterSave(old(store.files), store.failing, stateDir, sessionId, messages)
  {
    PathsDistinct(stateDir, sessionId);
    var sessionPath := SessionPath(stateDir, sessionId);
    var tmpPath := TmpPath(sessionPath);
    ok := store.Write(tmpPath, SessionFile(sessionId, messages));
    if !ok { return; }
    ok := store.Replace(tmpPath, sessionPath);
    if !ok { return; }
    var latestPath := LatestPath(stateDir);
    var latestTmp := TmpPath(latestPath);
    ok := store.Write(latestTmp, TextFile(sessionId + "\n"));
    if !ok { return; }
    ok := store.Replace(latestTmp, latestPath);
    if !ok { return; }
    SaveSteps(old(store.files), stateDir, sessionId, messages);
  }

  /** The four steps of a save that all succeed end in `Saved`. */
  lemma SaveSteps(files: map<string, FileData>, stateDir: string, sessionId: string, messages: seq<Message>)
    ensures var s := SessionPath(stateDir, sessionId);
      var l := LatestPath(stateDir);
      var f1 := files[TmpPath(s) := SessionFile(sessionId, messages)];
      var f2 := (f1 - {TmpPath(s)})[s := f1[TmpPath(s)]];
      var f3 := f2[TmpPath(l) := TextFile(sessionId + "\n")];
      (f3 - {TmpPath(l)})[l := f3[TmpPath(l)]] == Saved(files, stateDir, sessionId, messages)
  {
    PathsDistinct(stateDir, sessionId);
  }

  /** Why a load fails. */
  datatype LoadError = NoLatest | LatestEmpty | NotFound(sessionId: string) | Malformed

  /** The `FileNotFoundError` message of each failure; a malformed payload raises the JSON decoder's own error instead. */
  function ErrorText(e: LoadError): Option<string> {
    match e
    case NoLatest => Some("No latest session found")
    case LatestEmpty => Some("Latest session pointer was empty")
    case NotFound(id) => Some("Session not found: " + id)
    case Malformed => None
  }

  /** Loading the session `sessionId`: its id and messages, or why there are none. */
  function LoadSession(files: map<string, FileData>, stateDir: string, sessionId: string): (r: Result<(string, seq<Message>), LoadError>)
    ensures r.Success? ==> r.value.0 == sessionId
    ensures SessionPath(stateDir, sessionId) !in files <==> r == Failure(NotFound(sessionId))
  {
    var p := SessionPath(stateDir, sessionId);
    if p !in files then Failure(NotFound(sessionId))
    else match files[p]
      case SessionFile(_, messages) => Success((sessionId, messages))
      case TextFile(_) => Failure(Malformed)
  }

  /** `load_messages`: the given session, or with no id the one the stripped latest pointer names. */
  function Load(files: map<string, FileData>, stateDir: string, sessionId: Option<string>): (r: Result<(string, seq<Message>), LoadError>)
    ensures sessionId.Some? ==> r == LoadSession(files, stateDir, sessionId.value)
    ensures sessionId.None? && LatestPath(stateDir) !in files ==> r == Failure(NoLatest)
    ensures r.Success? ==> r.value.0 != "" || sessionId.Some?
  {
    match sessionId
    case Some(id) => LoadSession(files, stateDir, id)
    case None =>
      var l := LatestPath(stateDir);
      if l !in files then Failure(NoLatest)
      else match files[l]
        case SessionFile(_, _) => Failure(Malformed)
        case TextFile(text) =>
          var id := Strip(text);
          if id == "" then Failure(LatestEmpty) else LoadSession(files, stateDir, id)
  }

  /** `load_messages` over the store; the store is left unchanged. */
  method LoadMessages(store: FileStore, stateDir: string, sessionId: Option<string>) returns (r: Result<(string, seq<Message>), LoadError>)
    ensures r == Load(store.files, stateDir, sessionId)
  {
    if sessionId.None? {
      var l := LatestPath(stateDir);
      if l !in store.files {
        return Failure(NoLatest);
      }
      if store.files[l].SessionFile? {
        return Failure(Malformed);
      }
      var id := Strip(store.files[l].text);
      if id == "" {
        return Failure(LatestEmpty);
      }
      r := LoadSession(store.files, stateDir, id);
    } else {
      r := LoadSession(store.files, stateDir, sessionId.value);
    }
  }

  /** Loading a session after saving it gives back its id and messages. */
  lemma LoadAfterSave(files: map<string, FileData>, stateDir: string, sessionId: string, messages: seq<Message>)
    ensures Load(Saved(files, stateDir, sessionId, messages), stateDir, Some(sessionId)) == Success((sessionId, messages))
  {
  }

  /** After a save, the latest session is the one saved, for any id that is non-empty and has no surrounding whitespace. */
  lemma LoadLatestAfterSave(files: map<string, FileData>, stateDir: string, sessionId: string, messages: seq<Message>)
    requires sessionId != "" && Strip(sessionId) == sessionId
    ensures Load(Saved(files, stateDir, sessionId, messages), stateDir, None) == Success((sessionId, messages))
  {
    StripTrailingNewline(sessionId);
  }

  /** Saving one session leaves every other session's file as it was. */
  lemma SavedKeepsOtherSessions(files: map<string, FileData>, stateDir: string, sessionId: string, messages: seq<Message>, other: string)
    requires other != sessionId
    ensures var p := SessionPath(stateDir, other);
      var after := Saved(files, stateDir, sessionId, messages);
      (p in after <==> p in files) && (p in after ==> after[p] == files[p])
  {
    var p := SessionPath(stateDir, other);
    if p == SessionPath(stateDir, sessionId) {
      SessionPathInjective(stateDir, other, sessionId);
    }
    var k := |stateDir| + 1;
    assert p[k] == 's' && LatestPath(stateDir)[k] == 'l' && TmpPath(LatestPath(stateDir))[k] == 'l';
    var t := TmpPath(SessionPath(stateDir, sessionId));
    assert p[|p| - 1] == 'n' && t[|t| - 1] == 'p';
  }

  /** Saving s1 then s2: the latest is s2, and s1 can still be loaded by its id. */
  lemma SaveTwice(files: map<string, FileData>, stateDir: string, id1: string, m1: seq<Message>, id2: string, m2: seq<Message>)
    requires id2 != "" && Strip(id2) == id2
    ensures var after := Saved(Saved(files, stateDir, id1, m1), stateDir, id2, m2);
      && Load(after, stateDir, None) == Success((id2, m2))
      && Load(after, stateDir, Some(id1)) == Success((id1, if id1 == id2 then m2 else m1))
  {
    var first := Saved(files, stateDir, id1, m1);
    LoadLatestAfterSave(first, stateDir, id2, m2);
    if id1 != id2 {
      SavedKeepsOtherSessions(first, stateDir, id2, m2, id1);
    }
  }

  // ---------------------------------------------------------------------------
  // The autosaver

  /**
    The background autosaver. `latestMessages` is the single pending slot,
    `eventSet` the wake-up event, `stop` the close request and `running`
    whether the worker thread has not yet returned. The worker loop is
    modelled one pass at a time (`TakePending`, `SavePending`,
    `FinishIfStopped`) so that requests may interleave between the steps.
   */
  class SessionAutosaver {
    const sessionId: string
    var latestMessages: Option<seq<Message>>
    var eventSet: bool
    var stop: bool
    var running: bool

    constructor(sessionId: string)
      ensures this.sessionId == sessionId
      ensures latestMessages == None && !eventSet && !stop && running
    {
      this.sessionId := sessionId;
      latestMessages := None;
      eventSet := false;
      stop := false;
      running := true;
    }

    /** `request_save`: the slot holds exactly the new snapshot, any older unsaved one is dropped, and the worker is woken. */
    method RequestSave(messages: seq<Message>)
      modifies this
      ensures latestMessages == Some(messages) && eventSet
      ensures stop == old(stop) && running == old(running)
    {
      latestMessages := Some(messages);
      eventSet := true;
    }

    /** `close`: asks the worker to stop and wakes it (the bounded join is not modelled). */
    method Close()
      modifies this
      ensures stop && eventSet
      ensures latestMessages == old(latestMessages) && running == old(running)
    {
      stop := true;
      eventSet := true;
    }

    /** The start of a pass once the event fired: clear the event, then take the slot and empty it in one locked step. */
    method TakePending() returns (messages: Option<seq<Message>>)
      requires running && eventSet
      modifies this
      ensures messages == old(latestMessages)
      ensures latestMessages == None && !eventSet
      ensures stop == old(stop) && running == old(running)
    {
      eventSet := false;
      messages := latestMessages;
      latestMessages := None;
    }

    /**
      Saves what was taken, if anything. A failing save is swallowed: the
      autosaver itself is untouched either way, only the store changes.
     */
    method SavePending(store: FileStore, stateDir: string, messages: Option<seq<Message>>)
      modifies store
      ensures store.failing == old(store.failing)
      ensures store.files == if messages.Some? then AfterSave(old(store.files), store.failing, stateDir, sessionId, messages.value) else old(store.files)
    {
      if messages.Some? {
        var _ := SaveMessages(store, stateDir, sessionId, messages.value);
      }
    }

    /** The end of a pass: the worker returns exactly when stop was requested and no new snapshot arrived. */
    method FinishIfStopped()
      modifies this
      ensures running == (old(running) && !(stop && latestMessages == None))
      ensures latestMessages == old(latestMessages) && eventSet == old(eventSet) && stop == old(stop)
    {
      if stop && latestMessages == None {
        running := false;
      }
    }

    /**
      One pass of the worker with no request in between: the newest snapshot
      is saved (as far as the store lets it), the slot is empty, and the worker
      returns exactly when stop was requested.
     */
    method RunPass(store: FileStore, stateDir: string)
      requires running && eventSet
      modifies this, store
      ensures latestMessages == None && !eventSet && stop == old(stop)
      ensures running == !stop
      ensures store.failing == old(store.failing)
      ensures store.files == if old(latestMessages).Some? then AfterSave(old(store.files), store.failing, stateDir, sessionId, old(latestMessages).value) else old(store.files)
    {
      var messages := TakePending();
      SavePending(store, stateDir, messages);
      FinishIfStopped();
    }
  }
}
