/**
 * The dictionary/JSON persistence helpers of bored-tools.py over an abstract
 * file system: `generar_nombre_archivo`, `guardar_diccionario` and
 * `mostrar_diccionario`. The file system maps a file name to what `json.load`
 * would find in it; JSON encoding itself is not modelled.
 */
module Persistence {
  import opened Wrappers
  import opened Values
  import opened Naming

  type Files = map<string, Content>

  /** The exceptions `guardar_diccionario` lets escape. */
  datatype SaveError =
    | NotADict        // line 28: `dictionary` is not a dict
    | ReadFailed      // lines 38-40: the existing file holds JSON that is not an object
    | MissingValue    // line 45: `clave` given with `valor` None
    | UpdateNotADict  // line 50: `update` given but not a dict

  /** Python truthiness of the optional file name: None and "" are both false. */
  predicate IsGiven(name: Option<string>) {
    name.Some? && name.value != ""
  }

  /** Line 31 and the successful `json.load` of line 34: an existing file is read. */
  predicate ReadsExisting(files: Files, name: Option<string>) {
    IsGiven(name) && name.value in files && files[name.value].Json?
  }

  /**
   * Lines 31-40: the dictionary to work on. An existing file with a JSON object
   * replaces the passed dictionary (line 35 updates it with itself, which
   * changes nothing); invalid JSON keeps the passed one; any other JSON value
   * fails at `.update` and the error is re-raised.
   */
  function Preload(files: Files, name: Option<string>, passed: Entries): Result<Entries, SaveError> {
    if ReadsExisting(files, name) then
      var v := files[name.value].value;
      if v.Dict? then Success(v.entries) else Failure(ReadFailed)
    else
      Success(passed)
  }

  /** Lines 43-46. */
  function SetKey(d: Entries, key: Option<string>, value: Value): Result<Entries, SaveError> {
    if key.None? then Success(d)
    else if value.Null? then Failure(MissingValue)
    else Success(d[key.value := value])
  }

  /** Lines 48-51. */
  function ApplyUpdate(d: Entries, update: Value): Result<Entries, SaveError> {
    if update.Null? then Success(d)
    else if update.Dict? then Success(Override(d, update.entries))
    else Failure(UpdateNotADict)
  }

  /** Lines 43-51: set `clave`, then apply `update`. */
  function KeyThenUpdate(d: Entries, key: Option<string>, value: Value, update: Value): Result<Entries, SaveError> {
    var keyed :- SetKey(d, key, value);
    ApplyUpdate(keyed, update)
  }

  /**
   * The dictionary object itself after lines 43-51 ran on it in place: line 50
   * raises after line 46 has already set the key.
   */
  function InPlaceAfter(d: Entries, key: Option<string>, value: Value, update: Value): Entries {
    match SetKey(d, key, value)
    case Failure(_) => d
    case Success(keyed) =>
      match ApplyUpdate(keyed, update)
      case Success(r) => r
      case Failure(_) => keyed
  }

  /** Lines 27-51: the dictionary `guardar_diccionario` writes, or the error it raises. */
  function SaveEntries(files: Files, passed: Option<Entries>, name: Option<string>,
                       key: Option<string>, value: Value, update: Value): Result<Entries, SaveError>
  {
    if passed.None? then Failure(NotADict)
    else
      var base :- Preload(files, name, passed.value);
      KeyThenUpdate(base, key, value, update)
  }

  /** Lines 54-59: the given name, or a freshly generated one, ending in `.json`. */
  function TargetName(files: Files, name: Option<string>): string {
    WithJsonSuffix(if IsGiven(name) then name.value
                   else NumberedName(DefaultBase, FirstFree(DefaultBase, files.Keys, 1)))
  }

  /** The file system after `guardar_diccionario`: one file written on success, nothing on error. */
  function SavedFiles(files: Files, passed: Option<Entries>, name: Option<string>,
                      key: Option<string>, value: Value, update: Value): Files
  {
    match SaveEntries(files, passed, name, key, value, update)
    case Success(d) => files[TargetName(files, name) := Json(Dict(d))]
    case Failure(_) => files
  }

  /**
   * The caller's own dictionary after `guardar_diccionario`: changed in place
   * by lines 46 and 51 unless an existing file was read (line 34 rebinds the
   * name to a new dictionary).
   */
  function CallerAfter(passed: Entries, files: Files, name: Option<string>,
                       key: Option<string>, value: Value, update: Value): Entries
  {
    if ReadsExisting(files, name) then passed else InPlaceAfter(passed, key, value, update)
  }

  /** What `json.load` hands back in `mostrar_diccionario`, or None once an error was caught. */
  function Read(files: Files, name: string): Value {
    if name in files && files[name].Json? then files[name].value else Null
  }

  /** Lines 72-81 and the implicit `return None`: the value `mostrar_diccionario` returns. */
  function ShowResult(files: Files, name: string, display: Value, update: Value): Value {
    if display.Null? && update.Null? then Read(files, name) else Null
  }

  /** Lines 96-108: the file system after `mostrar_diccionario`. */
  function ShowFiles(files: Files, name: string, update: Value): Files {
    if update.Dict? && name in files && files[name].Json? && files[name].value.Dict? then
      files[name := Json(Dict(Override(files[name].value.entries, update.entries)))]
    else
      files
  }

  /** A Python dict object, shared with the caller and changed in place. */
  class PyDict {
    var entries: Entries

    constructor (entries: Entries)
      ensures this.entries == entries
    {
      this.entries := entries;
    }

    /** Lines 43-51 of `guardar_diccionario`, run on this dictionary. */
    method SetKeyThenUpdate(key: Option<string>, value: Value, update: Value)
      returns (outcome: Result<Entries, SaveError>)
      modifies this
      ensures outcome == KeyThenUpdate(old(entries), key, value, update)
      ensures entries == InPlaceAfter(old(entries), key, value, update)
    {
      if key.Some? {
        if value.Null? {
          return Failure(MissingValue);
        }
        entries := entries[key.value := value];
      }
      if !update.Null? {
        if !update.Dict? {
          return Failure(UpdateNotADict);
        }
        entries := Override(entries, update.entries);
      }
      outcome := Success(entries);
    }
  }

  /** The `dictionary` argument: a dict object, or a value of some other type. */
  datatype DictArg = DictObject(obj: PyDict) | NonDict

  function Passed(dictionary: DictArg): Option<Entries>
    reads if dictionary.DictObject? then {dictionary.obj} else {}
  {
    if dictionary.DictObject? then Some(dictionary.obj.entries) else None
  }

  function Objects(dictionary: DictArg): set<object> {
    if dictionary.DictObject? then {dictionary.obj} else {}
  }

  /** The current directory: file name to stored content. */
  class FileSystem {
    var files: Files

    constructor (files: Files)
      ensures this.files == files
    {
      this.files := files;
    }

    /** `generar_nombre_archivo`: the first numbered name, counting from 1, that does not exist. */
    method GenerateName(base: string) returns (fileName: string)
      ensures fileName == NumberedName(base, FirstFree(base, files.Keys, 1))
      ensures fileName !in files
      ensures forall j :: 1 <= j < FirstFree(base, files.Keys, 1) ==> NumberedName(base, j) in files
    {
      var counter := 1;
      while NumberedName(base, counter) in files
        invariant 1 <= counter
        invariant forall j :: 1 <= j < counter ==> NumberedName(base, j) in files
        invariant FirstFree(base, files.Keys, counter) == FirstFree(base, files.Keys, 1)
        decreases |files.Keys - Tried(base, counter)|
      {
        TriedStep(base, files.Keys, counter);
        counter := counter + 1;
      }
      fileName := NumberedName(base, counter);
    }

    /**
     * Lines 27-51 of `guardar_diccionario`: validate the arguments and build
     * the dictionary to write, changing the caller's dictionary in place when
     * no existing file was read.
     */
    method Merge(dictionary: DictArg, name: Option<string>, key: Option<string>,
                 value: Value, update: Value) returns (merged: Result<Entries, SaveError>)
      modifies Objects(dictionary)
      ensures merged == SaveEntries(files, old(Passed(dictionary)), name, key, value, update)
      ensures dictionary.DictObject? ==>
                dictionary.obj.entries
                == CallerAfter(old(dictionary.obj.entries), files, name, key, value, update)
    {
      if !dictionary.DictObject? {
        return Failure(NotADict);
      }
      if IsGiven(name) && name.value in files && files[name.value].Json? {
        var loaded := files[name.value].value;
        if !loaded.Dict? {
          return Failure(ReadFailed);
        }
        var fromFile := new PyDict(loaded.entries);
        merged := fromFile.SetKeyThenUpdate(key, value, update);
      } else {
        merged := dictionary.obj.SetKeyThenUpdate(key, value, update);
      }
    }

    /** `guardar_diccionario(dictionary, nombre_archivo, clave, valor, update)`. */
    method Save(dictionary: DictArg, name: Option<string>, key: Option<string>,
                value: Value, update: Value) returns (outcome: Result<(), SaveError>)
      modifies this, Objects(dictionary)
      ensures var r := SaveEntries(old(files), old(Passed(dictionary)), name, key, value, update);
              && (outcome.Success? <==> r.Success?)
              && (outcome.Failure? ==> outcome.error == r.error)
      ensures files == SavedFiles(old(files), old(Passed(dictionary)), name, key, value, update)
      ensures dictionary.DictObject? ==>
                dictionary.obj.entries
                == CallerAfter(old(dictionary.obj.entries), old(files), name, key, value, update)
    {
      var merged := Merge(dictionary, name, key, value, update);
      if merged.Failure? {
        return Failure(merged.error);
      }
      var fileName: string;
      if IsGiven(name) {
        fileName := name.value;
      } else {
        fileName := GenerateName(DefaultBase);
      }
      if !EndsWith(fileName, JsonSuffix) {
        fileName := fileName + JsonSuffix;
      }
      files := files[fileName := Json(Dict(merged.value))];
      outcome := Success(());
    }

    /** `mostrar_diccionario(nombre_diccionario, mostrar, update)`; printing is not modelled. */
    method Show(name: string, display: Value, update: Value) returns (result: Value)
      modifies this
      ensures result == ShowResult(old(files), name, display, update)
      ensures files == ShowFiles(old(files), name, update)
    {
      if display.Null? && update.Null? {
        if name in files && files[name].Json? {
          return files[name].value;
        }
      }
      // Lines 83-93 only print `data[mostrar]` and catch every error: no effect.
      if !update.Null? {
        if name in files && files[name].Json? && files[name].value.Dict? && update.Dict? {
          var data := files[name].value.entries;
          data := Override(data, update.entries);
          files := files[name := Json(Dict(data))];
        }
      }
      result := Null;
    }
  }

  // ---------------------------------------------------------------------------
  // Properties of guardar_diccionario

  /** The call raises exactly in the four cases of lines 27-28, 38-40, 44-45 and 49-50, checked in that order. */
  lemma SaveFailsExactly(files: Files, passed: Option<Entries>, name: Option<string>,
                         key: Option<string>, value: Value, update: Value)
    ensures var r := SaveEntries(files, passed, name, key, value, update);
            var badFile := ReadsExisting(files, name) && !files[name.value].value.Dict?;
            var missing := key.Some? && value.Null?;
            var badUpdate := !update.Null? && !update.Dict?;
            && (r.Failure? <==> passed.None? || badFile || missing || badUpdate)
            && (passed.None? ==> r == Failure(NotADict))
            && (passed.Some? && badFile ==> r == Failure(ReadFailed))
            && (passed.Some? && !badFile && missing ==> r == Failure(MissingValue))
            && (passed.Some? && !badFile && !missing && badUpdate ==> r == Failure(UpdateNotADict))
  {
  }

  /** An error leaves every file as it was. */
  lemma SaveErrorStoresNothing(files: Files, passed: Option<Entries>, name: Option<string>,
                               key: Option<string>, value: Value, update: Value)
    requires SaveEntries(files, passed, name, key, value, update).Failure?
    ensures SavedFiles(files, passed, name, key, value, update) == files
  {
  }

  /**
   * Which dictionary the merge starts from: an existing file's JSON object
   * replaces the passed dictionary; invalid JSON, a missing file or no name
   * keeps the passed one.
   */
  lemma PreloadBase(files: Files, name: Option<string>, passed: Entries)
    ensures IsGiven(name) && name.value in files && files[name.value].Json? && files[name.value].value.Dict? ==>
              Preload(files, name, passed) == Success(files[name.value].value.entries)
    ensures IsGiven(name) && name.value in files && files[name.value].Malformed? ==>
              Preload(files, name, passed) == Success(passed)
    ensures !IsGiven(name) || name.value !in files ==> Preload(files, name, passed) == Success(passed)
  {
  }

  /**
   * The stored map is the base with `clave` set first and `update` applied
   * after: keys of `update` win, even over `clave`, and every other key keeps
   * its value.
   */
  lemma SaveMergeOrder(files: Files, passed: Entries, name: Option<string>,
                       key: Option<string>, value: Value, update: Value)
    requires SaveEntries(files, Some(passed), name, key, value, update).Success?
    ensures var d := SaveEntries(files, Some(passed), name, key, value, update).value;
            var base := Preload(files, name, passed).value;
            var u := if update.Dict? then update.entries else map[];
            && d.Keys == base.Keys + (if key.Some? then {key.value} else {}) + u.Keys
            && (forall k :: k in u ==> d[k] == u[k])
            && (key.Some? && key.value !in u ==> d[key.value] == value)
            && (forall k :: k in base && k !in u && Some(k) != key ==> d[k] == base[k])
  {
  }

  /**
   * The written file always ends in `.json`; a given name is only suffixed,
   * and without a name the generated, previously absent, name is used.
   */
  lemma SaveTarget(files: Files, name: Option<string>)
    ensures EndsWith(TargetName(files, name), JsonSuffix)
    ensures IsGiven(name) ==> TargetName(files, name) == WithJsonSuffix(name.value)
    ensures !IsGiven(name) ==>
              && TargetName(files, name) == NumberedName(DefaultBase, FirstFree(DefaultBase, files.Keys, 1))
              && TargetName(files, name) !in files
  {
  }

  /** A successful save writes the target file and leaves every other file untouched. */
  lemma SaveFrame(files: Files, passed: Option<Entries>, name: Option<string>,
                  key: Option<string>, value: Value, update: Value)
    requires SaveEntries(files, passed, name, key, value, update).Success?
    ensures var after := SavedFiles(files, passed, name, key, value, update);
            var target := TargetName(files, name);
            && after.Keys == files.Keys + {target}
            && after[target] == Json(Dict(SaveEntries(files, passed, name, key, value, update).value))
            && forall n :: n in files && n != target ==> after[n] == files[n]
  {
  }

  /** Without a name nothing is overwritten: the directory gains exactly one file. */
  lemma SaveWithoutNameAddsFile(files: Files, passed: Option<Entries>, name: Option<string>,
                                key: Option<string>, value: Value, update: Value)
    requires !IsGiven(name)
    requires SaveEntries(files, passed, name, key, value, update).Success?
    ensures |SavedFiles(files, passed, name, key, value, update)| == |files| + 1
  {
  }

  /**
   * The existence check (line 31) uses the name before `.json` is appended
   * (line 59). Given a name without the extension, as the docstring asks, the
   * file `name.json` is never read: whatever it held is replaced by the passed
   * dictionary.
   */
  lemma ExistenceCheckPrecedesSuffix(files: Files, passed: Entries, name: string)
    requires name != "" && !EndsWith(name, JsonSuffix) && name !in files
    ensures var after := SavedFiles(files, Some(passed), Some(name), None, Null, Null);
            name + JsonSuffix in after && after[name + JsonSuffix] == Json(Dict(passed))
  {
  }

  /** An instance: a saved "report" overwrites an existing "report.json" without merging it. */
  lemma ExistenceCheckExample()
    ensures var files := map["report.json" := Json(Dict(map["a" := Number(1)]))];
            var after := SavedFiles(files, Some(map[]), Some("report"), None, Null, Null);
            after == map["report.json" := Json(Dict(map[]))]
  {
    var files := map["report.json" := Json(Dict(map["a" := Number(1)]))];
    assert "report" !in files;
    assert !EndsWith("report", JsonSuffix);
    assert "report" + JsonSuffix == "report.json";
  }

  /**
   * The caller's dictionary is changed in place unless a file was read: after
   * a success it holds exactly what was stored, and when `update` is rejected
   * it still carries the key set just before.
   */
  lemma CallerSeesInPlaceChanges(files: Files, passed: Entries, name: Option<string>,
                                 key: Option<string>, value: Value, update: Value)
    requires !ReadsExisting(files, name)
    ensures SaveEntries(files, Some(passed), name, key, value, update).Success? ==>
              CallerAfter(passed, files, name, key, value, update)
              == SaveEntries(files, Some(passed), name, key, value, update).value
    ensures key.Some? && !value.Null? && SaveEntries(files, Some(passed), name, key, value, update) == Failure(UpdateNotADict) ==>
              CallerAfter(passed, files, name, key, value, update) == passed[key.value := value]
  {
  }

  /** Reading an existing file leaves the caller's dictionary alone. */
  lemma CallerUntouchedWhenFileRead(files: Files, passed: Entries, name: Option<string>,
                                    key: Option<string>, value: Value, update: Value)
    requires ReadsExisting(files, name)
    ensures CallerAfter(passed, files, name, key, value, update) == passed
  {
  }

  // ---------------------------------------------------------------------------
  // Properties of mostrar_diccionario, and of the two helpers together

  /** With neither `mostrar` nor `update`, the stored value is returned and nothing changes. */
  lemma ShowPlainReadsBack(files: Files, name: string)
    ensures ShowFiles(files, name, Null) == files
    ensures name in files && files[name].Json? ==> ShowResult(files, name, Null, Null) == files[name].value
    ensures name !in files || files[name].Malformed? ==> ShowResult(files, name, Null, Null) == Null
  {
  }

  /**
   * With a dict `update`, a file holding a JSON object afterwards holds that
   * object overridden by `update`; every other file is untouched, and nothing
   * changes when the file is missing, invalid or not an object.
   */
  lemma ShowUpdateOverrides(files: Files, name: string, u: Entries)
    ensures var after := ShowFiles(files, name, Dict(u));
            && after.Keys == files.Keys
            && (forall n :: n in files && n != name ==> after[n] == files[n])
            && (name in files && files[name].Json? && files[name].value.Dict? ==>
                  var m := files[name].value.entries;
                  && after[name].Json? && after[name].value.Dict?
                  && after[name].value.entries.Keys == m.Keys + u.Keys
                  && (forall k :: k in u ==> after[name].value.entries[k] == u[k])
                  && (forall k :: k in m && k !in u ==> after[name].value.entries[k] == m[k]))
            && (!(name in files && files[name].Json? && files[name].value.Dict?) ==> after == files)
  {
  }

  /** Applying the same update twice through `mostrar_diccionario` is the same as once. */
  lemma ShowUpdateIdempotent(files: Files, name: string, update: Value)
    ensures ShowFiles(ShowFiles(files, name, update), name, update) == ShowFiles(files, name, update)
  {
    if update.Dict? && name in files && files[name].Json? && files[name].value.Dict? {
      OverrideIdempotent(files[name].value.entries, update.entries);
    }
  }

  /** Two update calls in a row equal one call with the two updates merged, the second winning. */
  lemma ShowUpdateCompose(files: Files, name: string, u1: Entries, u2: Entries)
    ensures ShowFiles(ShowFiles(files, name, Dict(u1)), name, Dict(u2))
            == ShowFiles(files, name, Dict(Override(u1, u2)))
  {
    if name in files && files[name].Json? && files[name].value.Dict? {
      OverrideCompose(files[name].value.entries, u1, u2);
    }
  }

  /** What `guardar_diccionario` stores, `mostrar_diccionario` reads back. */
  lemma SaveThenShow(files: Files, passed: Option<Entries>, name: Option<string>,
                     key: Option<string>, value: Value, update: Value)
    requires SaveEntries(files, passed, name, key, value, update).Success?
    ensures var after := SavedFiles(files, passed, name, key, value, update);
            ShowResult(after, TargetName(files, name), Null, Null)
            == Dict(SaveEntries(files, passed, name, key, value, update).value)
  {
  }
}
