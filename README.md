# tcprocesses: process registry and command interpreter

This project models the two modules that hold the logic of the tcprocesses
TCP service.

- `process_manager.py` keeps a module-level dictionary `procesos`. It maps a
  caller-chosen id to a record with the keys `nombre`, `prioridad` and
  `estado`. The functions `crear_proceso`, `listar_procesos`,
  `eliminar_proceso`, `modificar_proceso` and `reiniciar_procesos` work on it.
- `command_handler.py` has `procesar_comando`. It trims a command line and
  splits it into words. It lower-cases the first word and dispatches on
  `crear`, `listar`, `eliminar` and `modificar`. Tuple unpacking enforces the
  number of words, and the registry's message is returned without its
  success flag.

The model has three files.

- `pystr.dfy` (module `PyStr`) holds the Python `str` built-ins the two
  modules call: `strip`, `split()`, `lower`, `sep.join` and `repr`.
  - `IsSpace` is the whitespace test that `strip()` and `split()` apply.
  - `SplitAt` models `s.split(sep)`, which the modules never call. It serves
    only to state what a listing built with `"\n".join` holds.
- `process_manager.dfy` (module `ProcessManager`) holds the registry.
  - Its abstract value is a `Table`: a map from id to `Record` plus the ids in
    insertion order, which is the order a Python 3 dict iterates in.
  - The functions `Create`, `Delete`, `Modify` and `Listing` specify the
    operations on a `Table`.
  - The class `Registry` has the same two parts as fields. Its methods
    change them in place, and each method's postcondition ties the new state
    and the reply to the specifying function.
- `command_handler.dfy` (module `CommandHandler`) holds the interpreter.
  - `Parse` turns a command line into a `Command`. `Execute` carries a
    command out on a `Table`. `Interpret` is the two together.
  - The method `ProcessCommand` takes the `Registry` object and follows the
    branches of `procesar_comando`. It is proved to agree with `Interpret`.

The model follows the code as written. The repository's tests describe a
different revision: `tests/system_testing/system_test.py` expects
`|`-separated fields, ids assigned by the server, `OK|`/`ERROR|`/`DATOS|`
reply tags and the verbs `AYUDA` and `SALIR`. `tests/test_commands.py`
calls `crear_proceso` with two arguments. The code shown has none of this.
Ids are supplied by the client, words are separated by whitespace, and
replies carry no tag. No lock guards the dictionary.

## Model

| member | source | states |
|---|---|---|
| PyStr.Split | command_handler.py:18 | every word of `split()` is non-empty and free of whitespace, and there are no words exactly when the input is all whitespace |
| PyStr.LStripSpec | command_handler.py:18 | `lstrip` keeps the suffix after the longest whitespace prefix, and that suffix is empty or starts with a non-space |
| PyStr.RStripSpec | command_handler.py:18 | `rstrip` keeps the prefix before the longest whitespace suffix, and that prefix is empty or ends with a non-space |
| PyStr.SplitLStrip | command_handler.py:18 | leading whitespace does not change the words of `split()` |
| PyStr.SplitRStrip | command_handler.py:18 | trailing whitespace does not change the words of `split()` |
| PyStr.SplitStrip | command_handler.py:18 | `cmd.strip().split()` has the same words as `cmd.split()` |
| PyStr.SplitToken | command_handler.py:18 | a word followed by whitespace or by nothing is split off whole |
| PyStr.SplitJoin | command_handler.py:18 | words joined by single spaces split back into exactly those words |
| PyStr.LStrip | command_handler.py:18 | `lstrip()` never lengthens the text, and what it keeps is empty or starts with a non-space |
| PyStr.RStrip | command_handler.py:18 | `rstrip()` never lengthens the text, and what it keeps is empty or ends with a non-space |
| PyStr.Strip | command_handler.py:18 | `strip()` never lengthens the text, and what it keeps is empty or starts and ends with a non-space |
| PyStr.Lower | command_handler.py:22 | `lower()` turns each ASCII capital, position by position, into its small letter and keeps every other character |
| PyStr.LowerMatches | command_handler.py:22 | for a target without capitals, `w.lower()` equals it exactly when `w` spells it up to ASCII case |
| PyStr.Join | process_manager.py:35 | `sep.join(parts)` starts with its first part |
| PyStr.JoinAppend | process_manager.py:35 | joining one more part appends the separator and that part, or gives the part alone when there was none |
| PyStr.SplitAtJoin | process_manager.py:35 | `sep.join` of parts that hold no separator splits back at the separator into exactly those parts |
| PyStr.QuoteFor | process_manager.py:35 | `repr` picks a quote the value does not contain whenever one exists; the chosen quote needs escaping only when the value holds both |
| PyStr.Escape | process_manager.py:35 | the body `repr` writes is at least as long as the value and never holds a raw line break |
| PyStr.Repr | process_manager.py:35 | `repr` gives at least the two quotes and never a raw line break |
| PyStr.UnescapeEscape | process_manager.py:35 | reading back the body `repr` writes gives the original value |
| PyStr.ReprRoundTrip | process_manager.py:35 | `repr(s)` starts and ends with its quote, and its body reads back as `s` |
| PyStr.ReprPlain | process_manager.py:35 | a printable ASCII value without `'` or `\` is shown as itself between single quotes |
| PyStr.ReprDoubleQuoted | process_manager.py:35 | a printable ASCII value that holds `'` but no `"` or `\` is shown as itself between double quotes |
| ProcessManager.Record.With | process_manager.py:66 | assigning a field gives it the new value and keeps the other two fields |
| ProcessManager.Remove | process_manager.py:46 | deleting a key keeps the other keys, once each, and drops that key |
| ProcessManager.RemoveAt | process_manager.py:46 | deleting the key at position i closes its gap and keeps the order of the others |
| ProcessManager.Create | process_manager.py:17-25 | a new id gets the record (nombre, prioridad, "activo") at the end of the order, every other entry is kept, and the reply is (True, "Proceso <id> creado."); an existing id gives (False, "Proceso ya existe.") and no change |
| ProcessManager.Delete | process_manager.py:44-48 | a present id loses its entry and its place in the order, the other entries and their order are kept, and the reply is (True, "Proceso <id> eliminado."); an absent id gives (False, "Proceso no encontrado.") and no change |
| ProcessManager.Modify | process_manager.py:61-67 | an absent id gives (False, "Proceso no encontrado."), then a name outside nombre/prioridad/estado gives (False, "Campo inválido."), both with no change; otherwise only that field of that record takes the value, order and keys are kept, and the reply is (True, "Proceso <id> actualizado.") |
| ProcessManager.RecordText | process_manager.py:35 | `str(info)` of a record is a dict display, opening with `{` and closing with `}` |
| ProcessManager.Line | process_manager.py:35 | the line of an entry is its id, then `: `, then the record's dict display ending in `}` |
| ProcessManager.Lines | process_manager.py:35 | the listing has one line per entry |
| ProcessManager.JoinedLinesNotEmptyText | process_manager.py:33-35 | the joined lines of a non-empty registry never read "Sin procesos.", whatever the ids |
| ProcessManager.Listing | process_manager.py:32-35 | the listing is "Sin procesos." exactly when the registry is empty |
| ProcessManager.LineHasNoBreak | process_manager.py:35 | a line holds no line break when its id holds none |
| ProcessManager.ListingLines | process_manager.py:35 | a non-empty listing split at its line breaks gives one line per entry in insertion order, when no id holds a line break |
| ProcessManager.ListingShape | process_manager.py:32-35 | the two cases of the listing together: the empty-registry text exactly when empty, one line per entry otherwise when no id holds a line break |
| ProcessManager.LinePlain | process_manager.py:35 | with plain values a line reads `<id>: {'nombre': '<n>', 'prioridad': '<p>', 'estado': '<e>'}` |
| ProcessManager.CreateAppendsLine | process_manager.py:17-25 | creating a new id appends exactly its line to the lines |
| ProcessManager.CreateExtendsListing | process_manager.py:20-35 | creating a new id appends "\n" and its line to the listing, or makes its line the whole listing when the registry was empty |
| ProcessManager.LinesDropAt | process_manager.py:35 | dropping the key at position i, keeping the other records, drops line i |
| ProcessManager.DeleteDropsLine | process_manager.py:44-48 | deleting a present id drops exactly its line from the lines |
| ProcessManager.ModifyRewritesLine | process_manager.py:61-67 | a successful modification rewrites only the line of that id |
| ProcessManager.CreateThenDelete | process_manager.py:17-48 | deleting a just-created id restores the registry exactly, order included |
| ProcessManager.DeleteTwice | process_manager.py:44-48 | a second delete of the same id reports not found and changes nothing |
| ProcessManager.CreateExistingKeepsRecord | process_manager.py:18-19 | creating an existing id leaves the listing as it was |
| ProcessManager.Registry.constructor | process_manager.py:6 | the registry starts empty |
| ProcessManager.Registry.CreateProcess | process_manager.py:17-25 | the new fields and the returned (ok, message) are those `Create` gives for the old fields |
| ProcessManager.Registry.ListProcesses | process_manager.py:32-35 | the text is "Sin procesos." exactly when the registry is empty, and otherwise splits into one line per entry when no id holds a line break |
| ProcessManager.Registry.DeleteProcess | process_manager.py:44-48 | the new fields and the returned (ok, message) are those `Delete` gives for the old fields |
| ProcessManager.Registry.ModifyProcess | process_manager.py:61-67 | the new fields and the returned (ok, message) are those `Modify` gives for the old fields |
| ProcessManager.Registry.Reset | process_manager.py:72-73 | `clear()` leaves the registry empty |
| CommandHandler.VerbOf | command_handler.py:22-35 | the first word names `crear`, `listar`, `eliminar` or `modificar` exactly when it spells that verb up to ASCII case |
| CommandHandler.VerbsLowerCase | command_handler.py:22 | `partes[0].lower()` equals a verb exactly when the word spells the verb up to ASCII case |
| CommandHandler.Classify | command_handler.py:22-40 | no words is blank; `crear` and `modificar` with exactly four words and `eliminar` with exactly two carry words two onwards in order; `listar` with any words lists; any other verb is unknown |
| CommandHandler.ClassifyWords | command_handler.py:24-40 | the arguments are words when the input is words, and only an empty word list is blank |
| CommandHandler.Parse | command_handler.py:18-22 | a command is blank exactly when it is all whitespace, and every argument it carries is a word |
| CommandHandler.Execute | command_handler.py:24-42 | only `crear`, `eliminar` and `modificar` can change the registry |
| CommandHandler.Interpret | command_handler.py:17-42 | any command leaves the registry well formed |
| CommandHandler.ProcessCommand | command_handler.py:17-42 | the reply and the registry's new state are those `Interpret` gives for the command and the old state |
| CommandHandler.ParseSplit | command_handler.py:18 | a command is parsed from `cmd.split()` alone |
| CommandHandler.LowerVerbs | command_handler.py:22-35 | each verb written in lower case dispatches to itself |
| CommandHandler.UpperVerbs | command_handler.py:22 | `CREAR`, `Crear`, `LISTAR`, `ELIMINAR` and `MODIFICAR` dispatch like the lower-case verbs, because they spell them up to case |
| CommandHandler.WordsAreTokens | command_handler.py:12-15 | every word of a well-formed command is a word `split()` can return |
| CommandHandler.ClassifyWordsOf | command_handler.py:24-38 | the words of a well-formed command dispatch back to that command |
| CommandHandler.ParseJoin | command_handler.py:18-22 | words joined by single spaces parse as those words |
| CommandHandler.ParseRender | command_handler.py:12-22 | writing a well-formed command out and parsing it gives the command back |
| CommandHandler.BlankCommand | command_handler.py:18-20 | an all-whitespace command is answered "Comando vacío." and changes nothing |
| CommandHandler.ClassifyCaseInsensitive | command_handler.py:22 | dispatch depends on the first word only through its lower-case form |
| CommandHandler.VerbCaseInsensitive | command_handler.py:22 | two commands whose verbs lower-case alike and whose arguments agree parse alike |
| CommandHandler.ListarIgnoresArguments | command_handler.py:29-30 | `listar` with any further words answers the listing and changes nothing |
| CommandHandler.WrongArity | command_handler.py:24-42 | `crear` or `modificar` without exactly four words, or `eliminar` without exactly two, is answered "Número de argumentos inválido." with no change |
| CommandHandler.UnknownVerb | command_handler.py:39-40 | any other verb is answered "Comando no reconocido." with no change |
| CommandHandler.ParseCrear | command_handler.py:25-26 | four words starting with `crear` give id, name and priority from words two to four |
| CommandHandler.ParseEliminar | command_handler.py:31-32 | two words starting with `eliminar` give the id from the second word |
| CommandHandler.ParseModificar | command_handler.py:35-36 | four words starting with `modificar` give id, field and value from words two to four |
| CommandHandler.CrearPassesThrough | command_handler.py:25-28 | a well-formed `crear` answers the message of `crear_proceso` and changes the registry as it does |
| CommandHandler.EliminarPassesThrough | command_handler.py:31-34 | a well-formed `eliminar` answers the message of `eliminar_proceso` and changes the registry as it does |
| CommandHandler.ModificarPassesThrough | command_handler.py:35-38 | a well-formed `modificar` answers the message of `modificar_proceso` and changes the registry as it does |
| CommandHandler.Single | process_manager.py:20-24 | a registry with one entry is well formed and holds that id |
| CommandHandler.ListingSingle | process_manager.py:35 | a one-entry registry lists exactly that entry's line |
| CommandHandler.SessionCreate | command_handler.py:25-28 | `crear` on the empty registry answers "Proceso <id> creado." and leaves exactly the new active entry |
| CommandHandler.SessionList | command_handler.py:29-30 | `listar` on a one-entry registry answers that entry's line |
| CommandHandler.ModifySingle | process_manager.py:61-67 | changing the priority of the only entry changes only that field |
| CommandHandler.SessionModify | command_handler.py:35-38 | `modificar <id> prioridad <v>` answers "Proceso <id> actualizado." and changes only the priority |
| CommandHandler.DeleteSingle | process_manager.py:44-48 | deleting the only entry leaves the empty registry; deleting from the empty registry answers not found |
| CommandHandler.SessionDelete | command_handler.py:31-34 | `eliminar` removes the only entry; a second one answers "Proceso no encontrado." |
| CommandHandler.Session | command_handler.py:17-40 | the create, list, modify, list, delete, list, delete session gives the replies the source's system test expects, adapted to the space-separated protocol |

## Left out

- main.py is not part of this model. It does socket I/O, one thread per
  connection and `decode(errors='ignore')`. It treats each `recv(1024)` chunk
  as one command. The model runs commands one at a time on a single
  registry. The unguarded sharing of `procesos` between threads is not
  modelled.
- The module-level dictionary is a `Registry` object passed to
  `ProcessCommand`. Its state is the same, but a global is not modelled.
- The `except Exception` branch (command_handler.py:43-44) is not modelled.
  Every step of `procesar_comando` works on strings and on a dict with
  string keys, so only `ValueError` from unpacking can be raised.
- PyStr.Lower: lower-cases ASCII letters only. Python's `lower()` also maps
  non-ASCII letters. Dispatch agrees anyway: the only non-ASCII character
  Python lower-cases to a single ASCII letter is KELVIN SIGN, which gives
  `k`, and no verb contains `k`.
- PyStr.Repr: treats every character above U+00FF as printable. Python's
  `repr` also escapes the non-printable ones there, such as format
  characters, unassigned code points and lone surrogates.
- The registry returns an `ok` flag with each message. `procesar_comando`
  discards it (command_handler.py:27,33,37), but tests/test_commands.py
  asserts on it. The model keeps it in `Reply`, and the methods of
  `Registry` return it.
- The tests' protocol is not modelled, because the code does not implement
  it. That covers `|` separators, server-assigned ids, reply tags, `AYUDA`
  and `SALIR`. The two-argument `crear_proceso` calls in
  tests/test_commands.py would raise `TypeError` against the code, and
  they are not modelled either.
