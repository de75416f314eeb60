// Loading configuration objects from layered directories, with and without the
// disabled ones (src/dros/config_objects.py:936-1025).
module Overlay {
  import opened Wrappers
  import opened Sequences

  // --------------------------------------------------------------- documents

  // A field that is absent (or false in Python's sense where the code says so),
  // of the wrong type, or a value.
  datatype Field<T> = Absent | WrongType | Value(value: T)

  // disabled: metadata.get("disabled") is True
  datatype Metadata = Metadata(disabled: bool, name: Field<string>)

  datatype Document =
    | Null
    | NotMapping
    | Mapping(apiVersion: Field<string>, kind: Field<string>, metadata: Field<Metadata>, spec: Field<string>)

  datatype File = Unreadable(path: string) | File(path: string, documents: seq<Document>)

  // The files of a directory in sorted order.
  datatype Directory = Missing | NotDirectory | Directory(files: seq<File>)

  datatype Object = Object(kind: string, name: string, disabled: bool, spec: string, source: string)

  datatype LoadError =
    | PathNotDirectory
    | BadFile(path: string)
    | BadDocument(path: string)
    | DuplicateObject(path: string, other: string)
    | DisabledConflict(path: string, other: string)

  const API_VERSION := "dros/v1alpha1"
  const DEFAULT_NAME := "default"

  // _parse_config_object; resolve is resolve_kind_alias
  function Parse(resolve: string -> string, doc: Document, path: string, inclusive: bool): Result<Option<Object>, LoadError>
    requires !doc.Null?
  {
    if doc.NotMapping? then Failure(BadDocument(path))
    else if doc.apiVersion.WrongType? || (doc.apiVersion.Value? && doc.apiVersion.value != API_VERSION) then
      Failure(BadDocument(path))
    else if !doc.kind.Value? || doc.kind.value == "" then Failure(BadDocument(path))
    else if doc.metadata.WrongType? then Failure(BadDocument(path))
    else
      var metadata := if doc.metadata.Value? then doc.metadata.value else Metadata(false, Absent);
      if metadata.disabled && !inclusive then Success(None)
      else if metadata.name.WrongType? || (metadata.name.Value? && metadata.name.value == "") then Failure(BadDocument(path))
      else if doc.spec.WrongType? then Failure(BadDocument(path))
      else
        Success(Some(Object(
          resolve(doc.kind.value), if metadata.name.Value? then metadata.name.value else DEFAULT_NAME,
          metadata.disabled, if doc.spec.Value? then doc.spec.value else "", path)))
  }

  // When a document describes an object, and which one.
  lemma ParseIff(resolve: string -> string, doc: Document, path: string, inclusive: bool, o: Object)
    requires !doc.Null?
    ensures Parse(resolve, doc, path, inclusive) == Success(Some(o)) <==>
              && doc.Mapping? && (doc.apiVersion == Absent || doc.apiVersion == Value("dros/v1alpha1"))
              && doc.kind.Value? && doc.kind.value != "" && o.kind == resolve(doc.kind.value)
              && (if doc.metadata == Absent then !o.disabled && o.name == "default"
                  else
                    && doc.metadata.Value? && o.disabled == doc.metadata.value.disabled
                    && (doc.metadata.value.disabled ==> inclusive)
                    && (if doc.metadata.value.name == Absent then o.name == "default"
                        else doc.metadata.value.name == Value(o.name) && o.name != ""))
              && (if doc.spec == Absent then o.spec == "" else doc.spec == Value(o.spec))
              && o.source == path
    ensures Parse(resolve, doc, path, inclusive) == Success(None) <==>
              && doc.Mapping? && (doc.apiVersion == Absent || doc.apiVersion == Value("dros/v1alpha1"))
              && doc.kind.Value? && doc.kind.value != ""
              && doc.metadata.Value? && doc.metadata.value.disabled && !inclusive
    ensures Parse(resolve, doc, path, inclusive).Failure? ==> Parse(resolve, doc, path, inclusive).error == BadDocument(path)
  {
  }

  // ------------------------------------------- dictionaries that keep order

  predicate SameKey(a: Object, b: Object) {
    a.kind == b.kind && a.name == b.name
  }

  // A dict of objects by key, in insertion order.
  type Dict = seq<Object>

  ghost predicate DistinctKeys(d: Dict) {
    forall i, j :: 0 <= i < j < |d| ==> !SameKey(d[i], d[j])
  }

  function Lookup(d: Dict, o: Object): Option<Object> {
    if d == [] then None else if SameKey(d[0], o) then Some(d[0]) else Lookup(d[1..], o)
  }

  // objects[obj.key] = obj: an existing key keeps its place.
  function Put(d: Dict, o: Object): Dict {
    if d == [] then [o] else if SameKey(d[0], o) then [o] + d[1..] else [d[0]] + Put(d[1..], o)
  }

  predicate Enabled(o: Object) {
    !o.disabled
  }

  lemma {:induction false} PutKeepsDistinct(d: Dict, o: Object)
    requires DistinctKeys(d)
    ensures DistinctKeys(Put(d, o))
    ensures forall x :: x in Put(d, o) ==> x == o || x in d
  {
    if d != [] && !SameKey(d[0], o) {
      PutKeepsDistinct(d[1..], o);
      var rest := Put(d[1..], o);
      assert forall i :: 0 <= i < |rest| ==> rest[i] in rest;
    }
  }

  lemma {:induction false} LookupAfterPut(d: Dict, o: Object, x: Object)
    ensures Lookup(Put(d, o), x) == if SameKey(o, x) then Some(o) else Lookup(d, x)
  {
    if d != [] && !SameKey(d[0], o) {
      LookupAfterPut(d[1..], o, x);
    }
  }

  // ------------------------------------------------------------------ loading

  // objects, and the objects of the directory that is being read.
  datatype State = State(objects: Dict, seen: Dict)

  function LoadDocument(resolve: string -> string, doc: Document, path: string, inclusive: bool, st: State)
    : Result<State, LoadError>
  {
    if doc.Null? then Success(st)
    else
      match Parse(resolve, doc, path, inclusive)
      case Failure(e) => Failure(e)
      case Success(None) => Success(st)
      case Success(Some(o)) =>
        var previous, inherited := Lookup(st.seen, o), Lookup(st.objects, o);
        if previous.Some? then Failure(DuplicateObject(path, previous.value.source))
        else if inclusive && inherited.Some? && (inherited.value.disabled || o.disabled) then
          Failure(DisabledConflict(path, inherited.value.source))
        else Success(State(Put(st.objects, o), Put(st.seen, o)))
  }

  // A key comes once in a directory; an inclusive load refuses to override a
  // disabled object, or an enabled one by a disabled one; anything else replaces
  // what earlier directories say.
  lemma DocumentIff(resolve: string -> string, doc: Document, path: string, inclusive: bool, st: State, o: Object)
    requires !doc.Null? && Parse(resolve, doc, path, inclusive) == Success(Some(o))
    ensures var r := LoadDocument(resolve, doc, path, inclusive, st);
            var clash := exists x :: x in st.seen && x.kind == o.kind && x.name == o.name;
            && (r.Failure? && r.error.DuplicateObject? <==> clash)
            && (r.Failure? && r.error.DisabledConflict? <==>
                  !clash && inclusive && Lookup(st.objects, o).Some? && (Lookup(st.objects, o).value.disabled || o.disabled))
            && (r.Failure? ==> (r.error.DuplicateObject? || r.error.DisabledConflict?) && r.error.path == path)
            && (r.Success? ==> r.value == State(Put(st.objects, o), Put(st.seen, o)))
  {
    hide Parse, Put;
    LookupIff(st.seen, o);
  }

  lemma {:induction false} LookupIff(d: Dict, o: Object)
    ensures Lookup(d, o).Some? <==> exists x :: x in d && x.kind == o.kind && x.name == o.name
    ensures Lookup(d, o).Some? ==>
              Lookup(d, o).value in d && Lookup(d, o).value.kind == o.kind && Lookup(d, o).value.name == o.name
  {
    if d != [] {
      LookupIff(d[1..], o);
      assert d == [d[0]] + d[1..];
    }
  }

  function LoadDocuments(resolve: string -> string, docs: seq<Document>, path: string, inclusive: bool, st: State)
    : Result<State, LoadError>
  {
    if docs == [] then Success(st)
    else
      match LoadDocument(resolve, docs[0], path, inclusive, st)
      case Failure(e) => Failure(e)
      case Success(next) => LoadDocuments(resolve, docs[1..], path, inclusive, next)
  }

  function LoadFiles(resolve: string -> string, files: seq<File>, inclusive: bool, st: State): Result<State, LoadError> {
    if files == [] then Success(st)
    else
      match files[0]
      case Unreadable(path) => Failure(BadFile(path))
      case File(path, docs) =>
        match LoadDocuments(resolve, docs, path, inclusive, st)
        case Failure(e) => Failure(e)
        case Success(next) => LoadFiles(resolve, files[1..], inclusive, next)
  }

  function LoadDirectories(resolve: string -> string, dirs: seq<Directory>, inclusive: bool, objects: Dict)
    : Result<Dict, LoadError>
  {
    if dirs == [] then Success(objects)
    else
      match dirs[0]
      case Missing => LoadDirectories(resolve, dirs[1..], inclusive, objects)
      case NotDirectory => Failure(PathNotDirectory)
      case Directory(files) =>
        match LoadFiles(resolve, files, inclusive, State(objects, []))
        case Failure(e) => Failure(e)
        case Success(next) => LoadDirectories(resolve, dirs[1..], inclusive, next.objects)
  }

  function Load(resolve: string -> string, dirs: seq<Directory>, inclusive: bool): Result<Dict, LoadError> {
    LoadDirectories(resolve, dirs, inclusive, [])
  }

  // The variables of load_config_objects that its loops update.
  class Loader {
    const resolve: string -> string
    const inclusive: bool
    var objects: Dict
    var seen: Dict

    constructor (resolve: string -> string, inclusive: bool)
      ensures this.resolve == resolve && this.inclusive == inclusive && objects == [] && seen == []
    {
      this.resolve, this.inclusive := resolve, inclusive;
      objects, seen := [], [];
    }

    function Here(): State
      reads this
    {
      State(objects, seen)
    }

    // One round of the innermost loop.
    method AddDocument(doc: Document, path: string) returns (r: Result<(), LoadError>)
      modifies this
      ensures match LoadDocument(resolve, doc, path, inclusive, old(Here()))
              case Failure(e) => r == Failure(e)
              case Success(next) => r == Success(()) && Here() == next
    {
      if doc.Null? {
        return Success(());
      }
      var parsed := Parse(resolve, doc, path, inclusive);
      if parsed.Failure? {
        return Failure(parsed.error);
      }
      if parsed.value.None? {
        return Success(());
      }
      var o := parsed.value.value;
      var previous := Lookup(seen, o);
      if previous.Some? {
        return Failure(DuplicateObject(path, previous.value.source));
      }
      seen := Put(seen, o);
      var inherited := Lookup(objects, o);
      if inclusive && inherited.Some? && (inherited.value.disabled || o.disabled) {
        return Failure(DisabledConflict(path, inherited.value.source));
      }
      objects := Put(objects, o);
      r := Success(());
    }

    method AddFile(file: File) returns (r: Result<(), LoadError>)
      modifies this
      ensures match LoadFiles(resolve, [file], inclusive, old(Here()))
              case Failure(e) => r == Failure(e)
              case Success(next) => r == Success(()) && Here() == next
    {
      hide LoadDocument;
      assert [file][1..] == [];
      if file.Unreadable? {
        return Failure(BadFile(file.path));
      }
      var docs := file.documents;
      ghost var result := LoadDocuments(resolve, docs, file.path, inclusive, Here());
      for i := 0 to |docs|
        invariant LoadDocuments(resolve, docs[i..], file.path, inclusive, Here()) == result
      {
        assert docs[i..][1..] == docs[i + 1..];
        var one := AddDocument(docs[i], file.path);
        if one.Failure? {
          return Failure(one.error);
        }
      }
      r := Success(());
    }

    method AddDirectory(files: seq<File>) returns (r: Result<(), LoadError>)
      modifies this
      ensures match LoadFiles(resolve, files, inclusive, State(old(objects), []))
              case Failure(e) => r == Failure(e)
              case Success(next) => r == Success(()) && Here() == next
    {
      hide LoadDocuments;
      seen := [];
      ghost var result := LoadFiles(resolve, files, inclusive, Here());
      for i := 0 to |files|
        invariant LoadFiles(resolve, files[i..], inclusive, Here()) == result
      {
        assert files[i..][1..] == files[i + 1..];
        OneFile(resolve, files[i..], inclusive, Here());
        var one := AddFile(files[i]);
        if one.Failure? {
          return Failure(one.error);
        }
      }
      r := Success(());
    }
  }

  lemma OneFile(resolve: string -> string, files: seq<File>, inclusive: bool, st: State)
    requires files != []
    ensures LoadFiles(resolve, files, inclusive, st)
         == match LoadFiles(resolve, [files[0]], inclusive, st)
            case Failure(e) => Failure(e)
            case Success(next) => LoadFiles(resolve, files[1..], inclusive, next)
  {
  }

  // load_config_objects
  method LoadConfigObjects(resolve: string -> string, dirs: seq<Directory>, inclusive: bool) returns (r: Result<Dict, LoadError>)
    ensures r == Load(resolve, dirs, inclusive)
  {
    hide LoadFiles;
    var loader := new Loader(resolve, inclusive);
    for i := 0 to |dirs|
      invariant LoadDirectories(resolve, dirs[i..], inclusive, loader.objects) == Load(resolve, dirs, inclusive)
    {
      assert dirs[i..][1..] == dirs[i + 1..];
      match dirs[i]
      case Missing =>
      case NotDirectory => return Failure(PathNotDirectory);
      case Directory(files) =>
        var one := loader.AddDirectory(files);
        if one.Failure? {
          return Failure(one.error);
        }
    }
    r := Success(loader.objects);
  }

  // ---------------------------------------------------------------- agreement

  // What both loads agree on: the ordinary one has the enabled objects.
  ghost predicate Agree(all: State, ordinary: State) {
    && DistinctKeys(all.objects) && DistinctKeys(all.seen)
    && ordinary.objects == Filter(all.objects, Enabled)
    && ordinary.seen == Filter(all.seen, Enabled)
  }

  lemma {:induction false} PutEnabled(d: Dict, o: Object)
    requires DistinctKeys(d) && Enabled(o) && (Lookup(d, o).Some? ==> Enabled(Lookup(d, o).value))
    ensures Filter(Put(d, o), Enabled) == Put(Filter(d, Enabled), o)
  {
    if d != [] {
      if SameKey(d[0], o) {
        assert ([o] + d[1..])[1..] == d[1..];
      } else {
        PutEnabled(d[1..], o);
        assert Put(d, o)[1..] == Put(d[1..], o);
        if Enabled(d[0]) {
          assert Filter(d, Enabled)[1..] == Filter(d[1..], Enabled);
        }
      }
    }
  }

  lemma {:induction false} PutDisabled(d: Dict, o: Object)
    requires !Enabled(o) && Lookup(d, o).None?
    ensures Filter(Put(d, o), Enabled) == Filter(d, Enabled)
  {
    if d != [] {
      PutDisabled(d[1..], o);
      assert Put(d, o)[1..] == Put(d[1..], o);
    }
  }

  lemma {:induction false} LookupEnabled(d: Dict, o: Object)
    requires Lookup(d, o).None?
    ensures Lookup(Filter(d, Enabled), o).None?
  {
    if d != [] {
      LookupEnabled(d[1..], o);
    }
  }

  lemma ParseAgrees(resolve: string -> string, doc: Document, path: string)
    requires !doc.Null? && Parse(resolve, doc, path, true).Success?
    ensures Parse(resolve, doc, path, true).value.Some?
    ensures Parse(resolve, doc, path, false)
         == var o := Parse(resolve, doc, path, true).value; Success(if Enabled(o.value) then o else None)
  {
  }

  lemma DocumentAgrees(resolve: string -> string, doc: Document, path: string, all: State, ordinary: State)
    requires Agree(all, ordinary) && LoadDocument(resolve, doc, path, true, all).Success?
    ensures LoadDocument(resolve, doc, path, false, ordinary).Success?
    ensures Agree(LoadDocument(resolve, doc, path, true, all).value, LoadDocument(resolve, doc, path, false, ordinary).value)
  {
    if !doc.Null? {
      ParseAgrees(resolve, doc, path);
      hide Parse, Enabled;
      var o := Parse(resolve, doc, path, true).value.value;
      PutKeepsDistinct(all.objects, o);
      PutKeepsDistinct(all.seen, o);
      if Enabled(o) {
        EnabledInherited(all.objects, o);
        LookupEnabled(all.seen, o);
        PutEnabled(all.objects, o);
        PutEnabled(all.seen, o);
      } else {
        DisabledIs(o);
        PutDisabled(all.objects, o);
        PutDisabled(all.seen, o);
      }
    }
  }

  lemma EnabledInherited(d: Dict, o: Object)
    ensures Lookup(d, o).Some? && !Lookup(d, o).value.disabled ==> Enabled(Lookup(d, o).value)
  {
  }

  lemma DisabledIs(o: Object)
    requires !Enabled(o)
    ensures o.disabled
  {
  }

  lemma {:induction false} DocumentsAgree(
    resolve: string -> string, docs: seq<Document>, path: string, all: State, ordinary: State)
    requires Agree(all, ordinary) && LoadDocuments(resolve, docs, path, true, all).Success?
    ensures LoadDocuments(resolve, docs, path, false, ordinary).Success?
    ensures Agree(LoadDocuments(resolve, docs, path, true, all).value, LoadDocuments(resolve, docs, path, false, ordinary).value)
  {
    hide LoadDocument, Agree;
    if docs != [] {
      DocumentAgrees(resolve, docs[0], path, all, ordinary);
      DocumentsAgree(resolve, docs[1..], path, LoadDocument(resolve, docs[0], path, true, all).value,
                     LoadDocument(resolve, docs[0], path, false, ordinary).value);
    }
  }

  lemma {:induction false} FilesAgree(resolve: string -> string, files: seq<File>, all: State, ordinary: State)
    requires Agree(all, ordinary) && LoadFiles(resolve, files, true, all).Success?
    ensures LoadFiles(resolve, files, false, ordinary).Success?
    ensures Agree(LoadFiles(resolve, files, true, all).value, LoadFiles(resolve, files, false, ordinary).value)
  {
    hide LoadDocuments, Agree;
    if files != [] {
      var path, docs := files[0].path, files[0].documents;
      DocumentsAgree(resolve, docs, path, all, ordinary);
      FilesAgree(resolve, files[1..], LoadDocuments(resolve, docs, path, true, all).value,
                 LoadDocuments(resolve, docs, path, false, ordinary).value);
    }
  }

  lemma {:induction false} DirectoriesAgree(resolve: string -> string, dirs: seq<Directory>, all: Dict)
    requires DistinctKeys(all) && LoadDirectories(resolve, dirs, true, all).Success?
    ensures DistinctKeys(LoadDirectories(resolve, dirs, true, all).value)
    ensures LoadDirectories(resolve, dirs, false, Filter(all, Enabled))
         == Success(Filter(LoadDirectories(resolve, dirs, true, all).value, Enabled))
  {
    hide LoadFiles, DistinctKeys, Enabled, Filter;
    if dirs != [] {
      match dirs[0]
      case Missing => DirectoriesAgree(resolve, dirs[1..], all);
      case Directory(files) =>
        NothingSeen(all);
        FilesAgree(resolve, files, State(all, []), State(Filter(all, Enabled), []));
        DirectoriesAgree(resolve, dirs[1..], LoadFiles(resolve, files, true, State(all, [])).value.objects);
    }
  }

  lemma NothingSeen(all: Dict)
    requires DistinctKeys(all)
    ensures Agree(State(all, []), State(Filter(all, Enabled), []))
  {
  }

  // Whenever the inclusive load succeeds, the ordinary load succeeds with the
  // same objects less the disabled ones, in the same order.
  lemma OverlaysAgree(resolve: string -> string, dirs: seq<Directory>)
    requires Load(resolve, dirs, true).Success?
    ensures Load(resolve, dirs, false) == Success(Filter(Load(resolve, dirs, true).value, Enabled))
  {
    DirectoriesAgree(resolve, dirs, []);
  }

  // ---------------------------------------------------------------- overlays

  // All objects that the documents describe, in the order they are read.
  function DocumentObjects(resolve: string -> string, docs: seq<Document>, path: string, inclusive: bool): seq<Object> {
    if docs == [] then []
    else
      (if docs[0].Null? then []
       else match Parse(resolve, docs[0], path, inclusive) case Success(Some(o)) => [o] case _ => [])
      + DocumentObjects(resolve, docs[1..], path, inclusive)
  }

  function FileObjects(resolve: string -> string, files: seq<File>, inclusive: bool): seq<Object> {
    if files == [] then []
    else
      (if files[0].File? then DocumentObjects(resolve, files[0].documents, files[0].path, inclusive) else [])
      + FileObjects(resolve, files[1..], inclusive)
  }

  function DirectoryObjects(resolve: string -> string, dirs: seq<Directory>, inclusive: bool): seq<Object> {
    if dirs == [] then []
    else
      (if dirs[0].Directory? then FileObjects(resolve, dirs[0].files, inclusive) else [])
      + DirectoryObjects(resolve, dirs[1..], inclusive)
  }

  function PutAll(d: Dict, os: seq<Object>): Dict
    decreases os
  {
    if os == [] then d else PutAll(Put(d, os[0]), os[1..])
  }

  lemma {:induction false} PutAppend(d: Dict, a: seq<Object>, b: seq<Object>)
    ensures PutAll(d, a + b) == PutAll(PutAll(d, a), b)
    decreases a
  {
    hide Put;
    if a == [] {
      assert a + b == b;
    } else {
      assert (a + b)[1..] == a[1..] + b;
      PutAppend(Put(d, a[0]), a[1..], b);
    }
  }

  // The last object with the key, if there is one.
  function Last(os: seq<Object>, o: Object): Option<Object> {
    if os == [] then None
    else if SameKey(os[|os| - 1], o) then Some(os[|os| - 1])
    else Last(os[..|os| - 1], o)
  }

  lemma {:induction false} PutAllKeepsLast(os: seq<Object>, o: Object)
    ensures Lookup(PutAll([], os), o) == Last(os, o)
  {
    if os != [] {
      var init, last := os[..|os| - 1], os[|os| - 1];
      hide Lookup, Put;
      assert os == init + [last] && [last][1..] == [];
      PutAppend([], init, [last]);
      assert PutAll([], os) == PutAll(Put(PutAll([], init), last), []);
      PutAllKeepsLast(init, o);
      LookupAfterPut(PutAll([], init), last, o);
    } else {
      assert Lookup([], o) == None;
    }
  }

  lemma {:induction false} DocumentsPut(resolve: string -> string, docs: seq<Document>, path: string, inclusive: bool, st: State)
    requires LoadDocuments(resolve, docs, path, inclusive, st).Success?
    ensures LoadDocuments(resolve, docs, path, inclusive, st).value.objects
         == PutAll(st.objects, DocumentObjects(resolve, docs, path, inclusive))
  {
    hide Parse, Lookup, Put;
    if docs != [] {
      var next := LoadDocument(resolve, docs[0], path, inclusive, st).value;
      DocumentsPut(resolve, docs[1..], path, inclusive, next);
      var os := DocumentObjects(resolve, docs, path, inclusive);
      var rest := DocumentObjects(resolve, docs[1..], path, inclusive);
      if docs[0].Null? || Parse(resolve, docs[0], path, inclusive).value.None? {
        assert os == [] + rest == rest;
      } else {
        assert os[1..] == rest;
      }
    }
  }

  lemma {:induction false} FilesPut(resolve: string -> string, files: seq<File>, inclusive: bool, st: State)
    requires LoadFiles(resolve, files, inclusive, st).Success?
    ensures LoadFiles(resolve, files, inclusive, st).value.objects == PutAll(st.objects, FileObjects(resolve, files, inclusive))
  {
    hide LoadDocuments, DocumentObjects;
    if files != [] {
      var path, docs := files[0].path, files[0].documents;
      DocumentsPut(resolve, docs, path, inclusive, st);
      FilesPut(resolve, files[1..], inclusive, LoadDocuments(resolve, docs, path, inclusive, st).value);
      PutAppend(st.objects, DocumentObjects(resolve, docs, path, inclusive), FileObjects(resolve, files[1..], inclusive));
    }
  }

  lemma {:induction false} DirectoriesPut(resolve: string -> string, dirs: seq<Directory>, inclusive: bool, d: Dict)
    requires LoadDirectories(resolve, dirs, inclusive, d).Success?
    ensures LoadDirectories(resolve, dirs, inclusive, d).value == PutAll(d, DirectoryObjects(resolve, dirs, inclusive))
  {
    hide LoadFiles, FileObjects;
    if dirs != [] {
      match dirs[0]
      case Missing =>
        DirectoriesPut(resolve, dirs[1..], inclusive, d);
        var rest := DirectoryObjects(resolve, dirs[1..], inclusive);
        assert DirectoryObjects(resolve, dirs, inclusive) == [] + rest == rest;
      case Directory(files) =>
        FilesPut(resolve, files, inclusive, State(d, []));
        DirectoriesPut(resolve, dirs[1..], inclusive, LoadFiles(resolve, files, inclusive, State(d, [])).value.objects);
        PutAppend(d, FileObjects(resolve, files, inclusive), DirectoryObjects(resolve, dirs[1..], inclusive));
    }
  }

  // A loaded store holds for each key what the last document says, the later
  // directories overriding the earlier ones.
  lemma LaterOverrides(resolve: string -> string, dirs: seq<Directory>, inclusive: bool, o: Object)
    requires Load(resolve, dirs, inclusive).Success?
    ensures Lookup(Load(resolve, dirs, inclusive).value, o) == Last(DirectoryObjects(resolve, dirs, inclusive), o)
  {
    DirectoriesPut(resolve, dirs, inclusive, []);
    PutAllKeepsLast(DirectoryObjects(resolve, dirs, inclusive), o);
  }
}
