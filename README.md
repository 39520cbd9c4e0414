# Dictionary/JSON persistence helpers of Data-lab, in Dafny

This project models the small persistence toolkit in
`Data-playground/Data_Analisys_Functions/bored-tools.py`. It covers four helpers:

- `generar_nombre_archivo` looks for the first free numbered file name `dict_001.json`, `dict_002.json`, ….
- `guardar_diccionario` checks its arguments and merges a key/value pair and an update dictionary into a dictionary. It then writes the result to a `.json` file.
- `mostrar_diccionario` reads a stored dictionary, or updates it in place on disk.
- `df_minutos` produces random `hh:mm:ss` strings.

The current directory is a class `Persistence.FileSystem` with one field, `files`. It maps each file name to what `json.load` would find there: a decoded `Values.Value` or `Malformed` text. The docstring (line 21) documents `nombre_archivo` as a name without extension. Used that way, the read at lines 31-40 checks the bare name, so it never reads the `.json` file that line 63 then overwrites. The model keeps this behaviour as written.

The caller's dictionary is a class `Persistence.PyDict`, because `guardar_diccionario` changes it in place. Python's `None` is `Value.Null`. The optional file name and key are `Option<string>`. An exception comes back as a `Failure` result.

Modules:

- `Wrappers` holds `Option` and `Result`.
- `Formatting` holds Python's `{n:0Wd}` zero-padding and its decimal reading.
- `Values` holds JSON values and `dict.update`.
- `Naming` holds the numbered names, the smallest free counter and the `.json` suffix rule.
- `Persistence` holds the file system, the three dictionary helpers and their laws.
- `Minutes` holds `df_minutos`.

## Model

| member | source | states |
|---|---|---|
| `Persistence.FileSystem.GenerateName` | Data-playground/Data_Analisys_Functions/bored-tools.py:5-10 | The loop returns `base_NNN.json` for the smallest counter ≥ 1 whose name does not exist. That name is absent, and every counter below it is taken. |
| `Naming.FirstFree` | Data-playground/Data_Analisys_Functions/bored-tools.py:7-10 | The smallest counter ≥ `from` whose numbered name is not taken: its name is free and every counter between is taken. It always exists, because the set of names is finite and distinct counters give distinct names. |
| `Naming.FirstFreeUnique` | Data-playground/Data_Analisys_Functions/bored-tools.py:7-10 | A free counter whose predecessors from 1 are all taken is exactly the one the search returns. |
| `Naming.NumberedNameInjective` | Data-playground/Data_Analisys_Functions/bored-tools.py:8-10 | `f"{base}_{c:03d}.json"` is injective in the counter, so the search never tries a name twice. |
| `Naming.NumberedNameEndsWithJson` | Data-playground/Data_Analisys_Functions/bored-tools.py:10 | Generated names already end in `.json`. |
| `Formatting.ZeroPad` | Data-playground/Data_Analisys_Functions/bored-tools.py:8 | `{n:0Wd}` gives only digits. Its length is W, or the digit count of n when that is larger. |
| `Formatting.DigitsNoLeadingZero` | Data-playground/Data_Analisys_Functions/bored-tools.py:8 | The unpadded digits of n start with '0' exactly when n is 0. |
| `Formatting.DecimalOfZeroPad` | Data-playground/Data_Analisys_Functions/bored-tools.py:8 | Round trip: reading a zero-padded rendering as a decimal gives back the number. |
| `Formatting.ZeroPadInjective` | Data-playground/Data_Analisys_Functions/bored-tools.py:8 | Distinct numbers render differently at the same width. |
| `Formatting.ZeroPadWidth` | Data-playground/Data_Analisys_Functions/bored-tools.py:121 | Below 10^W, the rendering has exactly W characters: W = 2 for the `{x:02d}` fields of line 121, W = 3 for the `{contador:03d}` counter of line 8. |
| `Naming.WithJsonSuffix` | Data-playground/Data_Analisys_Functions/bored-tools.py:58-59 | The normalised name always ends in `.json` and starts with the given name. |
| `Naming.WithJsonSuffixFixedPoint` | Data-playground/Data_Analisys_Functions/bored-tools.py:58-59 | A name is left unchanged exactly when it already ends in `.json`; otherwise `.json` is appended once. |
| `Naming.WithJsonSuffixIdempotent` | Data-playground/Data_Analisys_Functions/bored-tools.py:58-59 | Normalising a normalised name changes nothing. |
| `Values.Override` | Data-playground/Data_Analisys_Functions/bored-tools.py:51 | `dict.update`: the keys are the union, keys of the update take its values, all others keep theirs. |
| `Values.OverrideIdempotent` | Data-playground/Data_Analisys_Functions/bored-tools.py:100 | Updating twice with the same dictionary equals updating once. |
| `Values.OverrideCompose` | Data-playground/Data_Analisys_Functions/bored-tools.py:51 | Two successive updates equal one update with the merged update dictionaries, the second one winning. |
| `Persistence.PyDict.SetKeyThenUpdate` | Data-playground/Data_Analisys_Functions/bored-tools.py:43-51 | Run on a dictionary object, it sets `clave` and then applies `update`, or raises. The object's new contents include the key even when `update` is rejected afterwards. |
| `Persistence.FileSystem.Merge` | Data-playground/Data_Analisys_Functions/bored-tools.py:27-51 | Checks the arguments, reads an existing file and builds the dictionary to write. The caller's dictionary can only be changed in place when no file was read; it then ends as `InPlaceAfter` (unchanged when `clave` and `update` are both None, or when `clave` is given with `valor` None: line 45 raises before line 46). |
| `Persistence.FileSystem.Save` | Data-playground/Data_Analisys_Functions/bored-tools.py:15-69 | `guardar_diccionario`: it raises exactly when the merge fails, and then writes nothing. Otherwise it writes the merged dictionary at the normalised target name and changes no other file. The caller's dictionary ends as `CallerAfter` describes. |
| `Persistence.FileSystem.Show` | Data-playground/Data_Analisys_Functions/bored-tools.py:71-108 | `mostrar_diccionario`: it returns the stored value only when neither `mostrar` nor `update` is given. With a dict `update`, only the named file changes, to its old object overridden by `update`. |
| `Persistence.SaveFailsExactly` | Data-playground/Data_Analisys_Functions/bored-tools.py:27-50 | The save fails if and only if one of these holds: `dictionary` is not a dict; the existing file holds JSON that is not an object; `clave` is given with `valor` None; `update` is given but is not a dict. The error raised is the first of these, in the source's order. |
| `Persistence.SaveErrorStoresNothing` | Data-playground/Data_Analisys_Functions/bored-tools.py:27-50 | When the save raises, the file system is unchanged. |
| `Persistence.PreloadBase` | Data-playground/Data_Analisys_Functions/bored-tools.py:31-37 | An existing file holding a JSON object replaces the passed dictionary; line 35 changes nothing. Invalid JSON, a missing file or no name keeps the passed dictionary. |
| `Persistence.SaveMergeOrder` | Data-playground/Data_Analisys_Functions/bored-tools.py:43-51 | The stored keys are the base's keys, `clave` and `update`'s keys. `update` wins even over `clave`. `clave` gets `valor` unless `update` has it. Every other key keeps the base's value. |
| `Persistence.SaveTarget` | Data-playground/Data_Analisys_Functions/bored-tools.py:53-59 | The target always ends in `.json`. A given name is only normalised. Without a name, the generated name is used, and it is not an existing file. |
| `Persistence.SaveFrame` | Data-playground/Data_Analisys_Functions/bored-tools.py:61-64 | A successful save adds or overwrites exactly the target file with the merged dictionary. Every other file is unchanged. |
| `Persistence.SaveWithoutNameAddsFile` | Data-playground/Data_Analisys_Functions/bored-tools.py:54-55 | Saving without a name never overwrites a file: the directory gains exactly one file. |
| `Persistence.ExistenceCheckPrecedesSuffix` | Data-playground/Data_Analisys_Functions/bored-tools.py:31-59 | For every non-empty name without the `.json` extension that is not itself a file, a save with no `clave` and no `update` stores exactly the passed dictionary at `name.json`, whatever that file held before: the existence check uses the name before the suffix is appended. |
| `Persistence.ExistenceCheckExample` | Data-playground/Data_Analisys_Functions/bored-tools.py:31-59 | An instance: `nombre_archivo="report"` with `report.json` on disk does not read that file and overwrites it with the passed dictionary. |
| `Persistence.CallerSeesInPlaceChanges` | Data-playground/Data_Analisys_Functions/bored-tools.py:43-51 | When no file was read, the caller's dictionary afterwards equals what was stored. When `update` is rejected, it still carries the key set just before. |
| `Persistence.CallerUntouchedWhenFileRead` | Data-playground/Data_Analisys_Functions/bored-tools.py:31-35 | When an existing file was read, the caller's dictionary is not changed. |
| `Persistence.ShowPlainReadsBack` | Data-playground/Data_Analisys_Functions/bored-tools.py:72-81 | With neither `mostrar` nor `update`, nothing changes. The result is the stored value, or None when the file is missing or invalid. |
| `Persistence.ShowUpdateOverrides` | Data-playground/Data_Analisys_Functions/bored-tools.py:96-108 | With a dict `update`, a file holding an object afterwards holds the old object overridden by `update`. Each key of `update` takes its value; the other keys keep theirs. Other files are untouched. A missing, invalid or non-object file is left unchanged. |
| `Persistence.ShowUpdateIdempotent` | Data-playground/Data_Analisys_Functions/bored-tools.py:96-102 | Running the update path twice with the same `update` equals running it once. |
| `Persistence.ShowUpdateCompose` | Data-playground/Data_Analisys_Functions/bored-tools.py:96-102 | Two successive update calls on one file equal a single call whose update is the first overridden by the second. |
| `Persistence.SaveThenShow` | Data-playground/Data_Analisys_Functions/bored-tools.py:62-75 | After a successful save, reading the target file with `mostrar_diccionario` returns exactly the stored dictionary. |
| `Minutes.DfMinutos` | Data-playground/Data_Analisys_Functions/bored-tools.py:110-131 | With `n` falsy it produces no strings. With `max_m` given it produces `max(n, 0)` strings, and raises when `n > 0` and `max_m < 0`. With `max_m` None it produces 30 strings. The i-th string formats the i-th draw. With in-range draws, every string is a clock time with hour at most `max_m` (or 2) and minute and second in 0..59. |
| `Minutes.TimeStringRoundTrip` | Data-playground/Data_Analisys_Functions/bored-tools.py:121 | `f'{h:02d}:{m:02d}:{s:02d}'` parses back to (h, m, s) when minute and second are below 100. So the format has at least two hour digits and exactly two minute and two second digits. |
| `Minutes.TimeStringIsClockTime` | Data-playground/Data_Analisys_Functions/bored-tools.py:118-121 | A draw within `randint`'s bounds yields a well-formed `hh:mm:ss` string within the same bounds. |

## Left out

- Real file I/O is abstracted to a name → content map. This covers `os.path.exists` (which is also true for directories), `open`, `os.path.abspath` and the `info` message.
- JSON encoding is opaque. A written dictionary is stored as the value itself, so `json.dump` errors are not modelled (the only ones would be unserialisable objects). Floating-point numbers are not modelled, and dictionary keys are strings only.
- All printing on error paths, and the `mostrar` branch of `mostrar_diccionario` (lines 83-93), which only prints `data[mostrar]` and catches every error.
- Persistence.FileSystem.Merge: a read error other than a non-object JSON value is not modelled (for example, a permission error re-raised at line 40).
- Persistence.FileSystem.Save: the write at lines 62-69 never fails in the model. The source re-raises when `open(nombre_archivo, 'w')` or `json.dump` fails (for example, a missing directory in the path), after the merge succeeded, possibly leaving a truncated file.
- Persistence.FileSystem.Save: `update` is passed by value, so it does not model the case where `update` is the same object as `dictionary`.
- Persistence.FileSystem.Show: a non-dict `update` is treated as a failed update that changes nothing. Python's `dict.update` also accepts an iterable of key/value pairs.
- Minutes.DfMinutos: the random draws are a parameter, and only the count and formatting are modelled. The one-column `pandas.DataFrame` is not modelled. The file never imports `rd` or `pd`, so as written every call raises `NameError`: on `pd` at line 130 always, and on `rd` at line 118 or 125 first when a loop runs (`n > 0` with `max_m` given, or `n` truthy with `max_m` None). The model assumes both imports exist. `n` is taken to be an integer or None.
- `Data-playground/Data_Analisys_Functions/extract_from_csv.py` is not part of this model. It wraps pandas, scikit-learn and plotting libraries in floating-point numerics.
- The asynchronous search prototypes under `Data-playground/Prototypes/` are not part of this model: concurrency, network I/O and HTML parsing.
