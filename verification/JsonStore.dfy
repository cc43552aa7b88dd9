/** The bridge's key/value store: one file per key, replaced whole by a write and a rename. */
module JsonStore {
  import opened Optional

  // ----- Names -----

  predicate KeyChar(c: char) {
    'A' <= c <= 'Z' || 'a' <= c <= 'z' || '0' <= c <= '9' || c == '_' || c == '-'
  }

  predicate ValidKey(key: string) {
    1 <= |key| <= 128 && forall i | 0 <= i < |key| :: KeyChar(key[i])
  }

  function FileOf(key: string): string {
    key + ".json"
  }

  function TmpOf(key: string): string {
    FileOf(key) + ".tmp"
  }

  predicate IsJson(name: string) {
    |name| >= 5 && name[|name| - 5..] == ".json"
  }

  function KeyOf(name: string): string
    requires IsJson(name)
  {
    name[..|name| - 5]
  }

  lemma Names(key: string)
    ensures IsJson(FileOf(key)) && KeyOf(FileOf(key)) == key && !IsJson(TmpOf(key))
  {
    var t := TmpOf(key);
    assert t[|t| - 1] == 'p' && t[|t| - 5..][4] == t[|t| - 1];
  }

  lemma NameOfKey(name: string)
    requires IsJson(name)
    ensures FileOf(KeyOf(name)) == name
  {}

  // ----- The directory and the map it stands for -----

  /** What a reader sees: the files whose name ends in .json, by key. */
  function Contents(files: map<string, string>): (m: map<string, string>)
    ensures forall k :: k in m <==> FileOf(k) in files
    ensures forall k | k in m :: m[k] == files[FileOf(k)]
  {
    assert forall f, g | IsJson(f) && IsJson(g) && KeyOf(f) == KeyOf(g) :: f == g by {
      forall f, g | IsJson(f) && IsJson(g) && KeyOf(f) == KeyOf(g) ensures f == g {
        NameOfKey(f);
        NameOfKey(g);
      }
    }
    assert forall k :: IsJson(FileOf(k)) && KeyOf(FileOf(k)) == k by {
      forall k ensures IsJson(FileOf(k)) && KeyOf(FileOf(k)) == k {
        Names(k);
      }
    }
    assert forall f | f in files && IsJson(f) :: FileOf(KeyOf(f)) == f by {
      forall f | f in files && IsJson(f) ensures FileOf(KeyOf(f)) == f {
        NameOfKey(f);
      }
    }
    map f | f in files && IsJson(f) :: KeyOf(f) := files[f]
  }

  /** Only the store writes here: every name is a key's file or its temporary one. */
  ghost predicate WellNamed(files: map<string, string>) {
    forall f | f in files :: StoreName(f)
  }

  ghost predicate StoreName(f: string) {
    exists k :: ValidKey(k) && (f == FileOf(k) || f == TmpOf(k))
  }

  lemma NamesApart(k: string, key: string)
    ensures FileOf(k) == FileOf(key) <==> k == key
    ensures FileOf(k) != TmpOf(key)
  {
    Names(k);
    Names(key);
  }

  lemma ContentsOfWrite(files: map<string, string>, key: string, text: string)
    ensures Contents(files[FileOf(key) := text]) == Contents(files)[key := text]
    ensures Contents(files[TmpOf(key) := text]) == Contents(files)
  {
    hide Contents, FileOf, TmpOf;
    forall k ensures (FileOf(k) == FileOf(key) <==> k == key) && FileOf(k) != TmpOf(key) {
      NamesApart(k, key);
    }
    MapsEqual(Contents(files[FileOf(key) := text]), Contents(files)[key := text]);
    MapsEqual(Contents(files[TmpOf(key) := text]), Contents(files));
  }

  lemma ContentsOfRemove(files: map<string, string>, key: string)
    ensures Contents(files - {FileOf(key)}) == Contents(files) - {key}
    ensures Contents(files - {TmpOf(key)}) == Contents(files)
  {
    hide Contents, FileOf, TmpOf;
    forall k ensures (FileOf(k) == FileOf(key) <==> k == key) && FileOf(k) != TmpOf(key) {
      NamesApart(k, key);
    }
    MapsEqual(Contents(files - {FileOf(key)}), Contents(files) - {key});
    MapsEqual(Contents(files - {TmpOf(key)}), Contents(files));
  }

  lemma MapsEqual(a: map<string, string>, b: map<string, string>)
    requires (forall k :: k in a <==> k in b) && forall k | k in a :: a[k] == b[k]
    ensures a == b
  {}

  // ----- Steps of the process and of the crash -----

  /** What the process is in the middle of; a crash forgets it and keeps the files. */
  datatype Doing = Idle | Writing(key: string, text: string) | Written(key: string, text: string)

  datatype State = State(files: map<string, string>, doing: Doing)

  datatype Event =
    | BeginSet(key: string, text: string)
    | Progress(part: string)
    | FinishWrite
    | Rename
    | Delete(key: string)
    | Crash

  function Step(s: State, e: Event): State {
    match e
    case BeginSet(key, text) =>
      if s.doing != Idle || !ValidKey(key) then s else State(s.files[TmpOf(key) := ""], Writing(key, text))
    case Progress(part) =>
      if s.doing.Writing? then s.(files := s.files[TmpOf(s.doing.key) := part]) else s
    case FinishWrite =>
      if s.doing.Writing? then
        State(s.files[TmpOf(s.doing.key) := s.doing.text], Written(s.doing.key, s.doing.text))
      else s
    case Rename =>
      if s.doing.Written? && TmpOf(s.doing.key) in s.files then
        State(s.files[FileOf(s.doing.key) := s.files[TmpOf(s.doing.key)]] - {TmpOf(s.doing.key)}, Idle)
      else s
    case Delete(key) =>
      if s.doing != Idle || !ValidKey(key) then s else s.(files := s.files - {FileOf(key)})
    case Crash => s.(doing := Idle)
  }

  /** The plain map: a set takes effect at its rename, a delete at once, and nothing else changes anything. */
  function MapStep(m: map<string, string>, doing: Doing, e: Event): map<string, string> {
    match e
    case Rename => if doing.Written? then m[doing.key := doing.text] else m
    case Delete(key) => if doing == Idle && ValidKey(key) then m - {key} else m
    case _ => m
  }

  function Run(s: State, run: seq<Event>): State
    decreases |run|
  {
    if run == [] then s else Run(Step(s, run[0]), run[1..])
  }

  function MapRun(m: map<string, string>, s: State, run: seq<Event>): map<string, string>
    decreases |run|
  {
    if run == [] then m else MapRun(MapStep(m, s.doing, run[0]), Step(s, run[0]), run[1..])
  }

  /** A finished write is on disk whole, and the key in hand is a valid one. */
  ghost predicate Inv(s: State) {
    && WellNamed(s.files)
    && (s.doing.Writing? ==> ValidKey(s.doing.key))
    && (s.doing.Written? ==>
          ValidKey(s.doing.key) && TmpOf(s.doing.key) in s.files && s.files[TmpOf(s.doing.key)] == s.doing.text)
  }

  lemma StoreNames(key: string)
    ensures ValidKey(key) ==> StoreName(FileOf(key)) && StoreName(TmpOf(key))
  {}

  lemma RenameRefines(s: State)
    requires Inv(s) && s.doing.Written?
    ensures Inv(Step(s, Rename)) && Contents(Step(s, Rename).files) == MapStep(Contents(s.files), s.doing, Rename)
  {
    hide Contents, FileOf, TmpOf, ValidKey, StoreName;
    StoreNames(s.doing.key);
    ContentsOfWrite(s.files, s.doing.key, s.doing.text);
    ContentsOfRemove(s.files[FileOf(s.doing.key) := s.doing.text], s.doing.key);
  }

  /** Writing to the temporary file, at any stage. */
  lemma WriteRefines(s: State, key: string, text: string)
    requires Inv(s) && ValidKey(key)
    ensures WellNamed(s.files[TmpOf(key) := text]) && Contents(s.files[TmpOf(key) := text]) == Contents(s.files)
  {
    hide Contents, FileOf, TmpOf, ValidKey, StoreName;
    StoreNames(key);
    ContentsOfWrite(s.files, key, text);
  }

  lemma DeleteRefines(s: State, key: string)
    requires Inv(s)
    ensures Inv(Step(s, Delete(key)))
    ensures Contents(Step(s, Delete(key)).files) == MapStep(Contents(s.files), s.doing, Delete(key))
  {
    hide Contents, FileOf, TmpOf, ValidKey, StoreName;
    StoreNames(key);
    ContentsOfRemove(s.files, key);
  }

  lemma StepRefines(s: State, e: Event)
    requires Inv(s)
    ensures Inv(Step(s, e)) && Contents(Step(s, e).files) == MapStep(Contents(s.files), s.doing, e)
  {
    hide Contents, FileOf, TmpOf, ValidKey, StoreName, WellNamed;
    match e
    case BeginSet(key, text) =>
      if ValidKey(key) {
        WriteRefines(s, key, "");
      }
    case Progress(part) =>
      if s.doing.Writing? {
        WriteRefines(s, s.doing.key, part);
      }
    case FinishWrite =>
      if s.doing.Writing? {
        WriteRefines(s, s.doing.key, s.doing.text);
      }
    case Rename =>
      if s.doing.Written? {
        RenameRefines(s);
      }
    case Delete(key) => DeleteRefines(s, key);
    case Crash =>
  }

  /** Crash refinement: under any interleaving the directory stands for the plain map. */
  lemma {:induction false} RunRefines(s: State, run: seq<Event>)
    requires Inv(s)
    ensures Inv(Run(s, run)) && Contents(Run(s, run).files) == MapRun(Contents(s.files), s, run)
    decreases |run|
  {
    hide Contents, Inv, MapStep, Step;
    if run != [] {
      StepRefines(s, run[0]);
      RunRefines(Step(s, run[0]), run[1..]);
    }
  }

  /** The events of one set: begin, any progress, then perhaps the end of the write and the rename. */
  ghost predicate DuringSet(run: seq<Event>) {
    forall i | 0 <= i < |run| :: run[i].Progress? || run[i].FinishWrite? || run[i].Rename?
  }

  /** Wherever a set is cut off it leaves the old value or the new one, and every other key as it was. */
  lemma InterruptedSet(s: State, key: string, text: string, run: seq<Event>)
    requires Inv(s) && s.doing == Idle && ValidKey(key) && DuringSet(run)
    ensures var m := Contents(Step(Run(Step(s, BeginSet(key, text)), run), Crash).files);
            m == Contents(s.files) || m == Contents(s.files)[key := text]
  {
    hide Contents, Inv;
    StepRefines(s, BeginSet(key, text));
    SetProgress(Step(s, BeginSet(key, text)), key, text, run);
  }

  lemma {:induction false} SetProgress(s: State, key: string, text: string, run: seq<Event>)
    requires Inv(s) && DuringSet(run)
    requires s.doing == Idle || s.doing == Writing(key, text) || s.doing == Written(key, text)
    ensures var m := Contents(Run(s, run).files);
            m == Contents(s.files) || m == Contents(s.files)[key := text]
    decreases |run|
  {
    hide Contents, Inv;
    if run != [] {
      StepRefines(s, run[0]);
      SetProgress(Step(s, run[0]), key, text, run[1..]);
    }
  }

  /** `keys` lists exactly the map's domain, and only valid keys. */
  lemma KeysExact(s: State)
    requires Inv(s)
    ensures forall k :: k in (set f | f in s.files && IsJson(f) :: KeyOf(f)) <==> k in Contents(s.files)
    ensures forall k | k in Contents(s.files) :: ValidKey(k)
  {
    forall k | k in Contents(s.files) ensures ValidKey(k) {
      var f := FileOf(k);
      assert StoreName(f);
      var v :| ValidKey(v) && (f == FileOf(v) || f == TmpOf(v));
      Names(k);
      Names(v);
    }
    forall k ensures k in (set f | f in s.files && IsJson(f) :: KeyOf(f)) <==> k in Contents(s.files) {
      Names(k);
      if k in (set f | f in s.files && IsJson(f) :: KeyOf(f)) {
        var f :| f in s.files && IsJson(f) && KeyOf(f) == k;
        NameOfKey(f);
      }
    }
  }

  // ----- Whole operations -----

  /** The events of a set that is not cut off: begin, writes of any parts, the end of the write, the rename. */
  function Progresses(parts: seq<string>): (r: seq<Event>)
    ensures |r| == |parts| && forall i | 0 <= i < |parts| :: r[i] == Progress(parts[i])
    decreases |parts|
  {
    if parts == [] then [] else [Progress(parts[0])] + Progresses(parts[1..])
  }

  lemma {:induction false} ProgressKeeps(s: State, run: seq<Event>)
    requires Inv(s) && s.doing.Writing? && forall i | 0 <= i < |run| :: run[i].Progress?
    ensures var t := Run(s, run); Inv(t) && t.doing == s.doing && Contents(t.files) == Contents(s.files)
    decreases |run|
  {
    hide Contents, Inv;
    if run != [] {
      StepRefines(s, run[0]);
      ProgressKeeps(Step(s, run[0]), run[1..]);
    }
  }

  /** A set that is not cut off leaves the new value under its key, every other key as it was, and no temporary file. */
  lemma CompletedSet(s: State, key: string, text: string, parts: seq<string>)
    requires Inv(s) && s.doing == Idle && ValidKey(key)
    ensures var t := Step(Step(Run(Step(s, BeginSet(key, text)), Progresses(parts)), FinishWrite), Rename);
            && t.doing == Idle && Contents(t.files) == Contents(s.files)[key := text] && TmpOf(key) !in t.files
  {
    hide Contents, Inv, TmpOf, FileOf, ValidKey, Run;
    StepRefines(s, BeginSet(key, text));
    var s1 := Step(s, BeginSet(key, text));
    ProgressKeeps(s1, Progresses(parts));
    var s2 := Run(s1, Progresses(parts));
    StepRefines(s2, FinishWrite);
    StepRefines(Step(s2, FinishWrite), Rename);
    WrittenIsThere(Step(s2, FinishWrite));
  }

  lemma WrittenIsThere(s: State)
    requires Inv(s) && s.doing.Written?
    ensures TmpOf(s.doing.key) in s.files
  {}

  /** A delete takes the key away and leaves every other; a bad key does nothing. */
  lemma CompletedDelete(s: State, key: string)
    requires Inv(s) && s.doing == Idle
    ensures Contents(Step(s, Delete(key)).files)
         == if ValidKey(key) then Contents(s.files) - {key} else Contents(s.files)
    ensures !ValidKey(key) ==> Step(s, Delete(key)) == s && forall text :: Step(s, BeginSet(key, text)) == s
  {
    hide Contents, Inv;
    StepRefines(s, Delete(key));
  }

  /** The names on disk. */
  lemma NamesOnDisk(key: string)
    ensures FileOf(key) == key + ".json" && TmpOf(key) == key + ".json.tmp"
    ensures IsJson(key + ".json") && !IsJson(key + ".json.tmp") && KeyOf(key + ".json") == key
  {
    Names(key);
  }

  /** By code point: letters, digits, underscore and hyphen, from 1 to 128 of them. */
  lemma KeyCharacters(key: string)
    ensures ValidKey(key) <==>
              1 <= |key| <= 128
              && forall c | c in key ::
                   65 <= c as int <= 90 || 97 <= c as int <= 122 || 48 <= c as int <= 57 || c as int in {95, 45}
  {
    assert forall i | 0 <= i < |key| :: key[i] in key;
  }

  // ----- The store -----

  /** Where the process dies during a set. */
  datatype Cut = DuringWrite(part: string) | BeforeRename | Never

  class Store {
    var files: map<string, string>

    method Set(key: string, text: string, cut: Cut) returns (ok: bool)
      modifies this
      ensures ok == ValidKey(key)
      ensures !ok ==> files == old(files)
      ensures Contents(files) == if ok && cut == Never then Contents(old(files))[key := text] else Contents(old(files))
    {
      hide Contents;
      if !ValidKey(key) {
        return false;
      }
      ok := true;
      ContentsOfWrite(files, key, if cut.DuringWrite? then cut.part else text);
      files := files[TmpOf(key) := if cut.DuringWrite? then cut.part else text];
      if cut != Never {
        return;
      }
      ContentsOfWrite(files, key, text);
      ContentsOfRemove(files[FileOf(key) := text], key);
      files := files[FileOf(key) := files[TmpOf(key)]] - {TmpOf(key)};
    }

    method Remove(key: string) returns (ok: bool)
      modifies this
      ensures ok == ValidKey(key)
      ensures Contents(files) == if ok then Contents(old(files)) - {key} else Contents(old(files))
    {
      hide Contents;
      ok := ValidKey(key);
      if ok {
        ContentsOfRemove(files, key);
        files := files - {FileOf(key)};
      }
    }

    /** Every name that ends in .json, without the ending. */
    method Keys() returns (ks: set<string>)
      ensures ks == Contents(files).Keys
    {
      ks := set f | f in files && IsJson(f) :: KeyOf(f);
      forall k ensures k in ks <==> k in Contents(files) {
        Names(k);
        if k in ks {
          var f :| f in files && IsJson(f) && KeyOf(f) == k;
          NameOfKey(f);
        }
      }
    }

    /** The text of a key's file; None when there is none. Parsing it is not modelled. */
    method Get(key: string) returns (r: Option<string>)
      ensures r == if ValidKey(key) && key in Contents(files) then Some(Contents(files)[key]) else None
    {
      r := if ValidKey(key) && FileOf(key) in files then Some(files[FileOf(key)]) else None;
    }
  }
}
