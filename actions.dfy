/**
 * The actor's states and the loading of their OpenSeeFace frame files, shared by the action
 * server (service/action.py) and its two older copies (backend_openseeface.py,
 * backends/action_server.py), which load their files the same way.
 */
module Actions {
  import opened Wrappers
  import opened Frames

  /** The `Action` enum, in declaration order. */
  datatype ActionKind = Idle | Speaking

  /** The enum's values, which are also the names of the action files. */
  function Name(a: ActionKind): string
  {
    match a
    case Idle => "idle"
    case Speaking => "speaking"
  }

  /** `Action(name)` when some member has that value (`any(file == a.value for a in Action)`). */
  function Parse(name: string): (r: Option<ActionKind>)
    ensures forall a :: r == Some(a) <==> Name(a) == name
  {
    if name == "idle" then Some(Idle) else if name == "speaking" then Some(Speaking) else None
  }

  /** The directories the action files are read from: service/action.py, then the two older servers. */
  const ActionDir: string := "action/openseeface/"
  const LegacyActionDir: string := "actions/openseeface/"

  /** One entry of `os.listdir` of the action directory: its name, whether it is a file, and its bytes. */
  datatype DirEntry = DirEntry(name: string, isFile: bool, content: seq<byte>)

  predicate IsActionFile(e: DirEntry, a: ActionKind)
  {
    e.isFile && e.name == Name(a)
  }

  /** The frames of every action loaded from the directory listing `dir`, in listing order. */
  function LoadActions(dir: seq<DirEntry>): map<ActionKind, seq<Frame>>
  {
    if dir == [] then map[]
    else
      var n := |dir| - 1;
      var loaded, e := LoadActions(dir[..n]), dir[n];
      if e.isFile && Parse(e.name).Some? then loaded[Parse(e.name).value := Chunks(e.content)] else loaded
  }

  /** The position of the last file in `dir` named after `a`, if any. */
  function LastActionFile(dir: seq<DirEntry>, a: ActionKind): (r: Option<nat>)
    ensures r.Some? ==> r.value < |dir| && IsActionFile(dir[r.value], a)
    ensures r.Some? ==> forall i :: r.value < i < |dir| ==> !IsActionFile(dir[i], a)
    ensures r.None? ==> forall i :: 0 <= i < |dir| ==> !IsActionFile(dir[i], a)
  {
    if dir == [] then None
    else if IsActionFile(dir[|dir| - 1], a) then Some(|dir| - 1)
    else LastActionFile(dir[..|dir| - 1], a)
  }

  /**
   * An action is loaded exactly when the listing holds a file named after it; its frames are
   * those of that file (the last one, were a name listed twice). Every other entry, and every
   * directory, is skipped.
   */
  lemma {:induction false} LoadedIff(dir: seq<DirEntry>, a: ActionKind)
    ensures a in LoadActions(dir) <==> LastActionFile(dir, a).Some?
    ensures a in LoadActions(dir) ==> LoadActions(dir)[a] == Chunks(dir[LastActionFile(dir, a).value].content)
  {
    if dir != [] {
      var n := |dir| - 1;
      LoadedIff(dir[..n], a);
      if !IsActionFile(dir[n], a) && Parse(dir[n].name).Some? {
        assert Parse(dir[n].name).value != a || !dir[n].isFile;
      }
    }
  }

  /**
   * The frames loaded for an action cover its file exactly: their concatenation is the
   * file's bytes, each is non-empty and at most 1785 bytes, and all but the last are full.
   */
  lemma LoadedFramesCoverFile(dir: seq<DirEntry>, a: ActionKind)
    requires a in LoadActions(dir)
    ensures LastActionFile(dir, a).Some?
    ensures var file := dir[LastActionFile(dir, a).value].content;
      Flatten(LoadActions(dir)[a]) == file && WellChunked(LoadActions(dir)[a])
  {
    LoadedIff(dir, a);
    var file := dir[LastActionFile(dir, a).value].content;
    FlattenChunks(file);
    ChunksWellChunked(file);
  }

  /** `_init_actions` on the listing `dir`: read every action file frame by frame into the map. */
  method InitActions(dir: seq<DirEntry>) returns (actions: map<ActionKind, seq<Frame>>)
    ensures actions == LoadActions(dir)
  {
    actions := map[];
    for i := 0 to |dir|
      invariant actions == LoadActions(dir[..i])
    {
      assert dir[..i + 1][..i] == dir[..i];
      var e := dir[i];
      var action := Parse(e.name);
      if !e.isFile || action.None? {
        continue;
      }
      var frames := ReadFrames(e.content);
      actions := actions[action.value := frames];
    }
    assert dir[..|dir|] == dir;
  }
}
