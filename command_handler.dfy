/**
 * The command interpreter of command_handler.py: `procesar_comando` trims
 * a command, splits it into whitespace-separated words, lower-cases the
 * first word and dispatches on it; `crear`, `eliminar` and `modificar`
 * unpack an exact number of words (a mismatch raises the `ValueError` that
 * becomes the arity message), and the registry's message is passed back
 * without its success flag.
 */
module CommandHandler {
  import opened PyStr
  import opened ProcessManager

  const MsgBlank: string := "Comando vacío."
  const MsgArity: string := "Número de argumentos inválido."
  const MsgUnknown: string := "Comando no reconocido."

  /** What `procesar_comando` makes of the words of a command. */
  datatype Command =
    | Blank
    | Crear(id: string, nombre: string, prioridad: string)
    | Listar
    | Eliminar(id: string)
    | Modificar(id: string, campo: string, valor: string)
    | BadArity
    | Unknown

  /** The four verbs `procesar_comando` knows, and everything else. */
  datatype Verb = VCrear | VListar | VEliminar | VModificar | VOther

  /** `partes[0].lower()` compared with each verb in turn: a word names a
      verb exactly when it spells the verb up to the case of its letters. */
  function VerbOf(w: string): (v: Verb)
    ensures v == VCrear <==> SameUpToCase(w, "crear")
    ensures v == VListar <==> SameUpToCase(w, "listar")
    ensures v == VEliminar <==> SameUpToCase(w, "eliminar")
    ensures v == VModificar <==> SameUpToCase(w, "modificar")
  {
    VerbsLowerCase(w);
    var accion := Lower(w);
    if accion == "crear" then VCrear
    else if accion == "listar" then VListar
    else if accion == "eliminar" then VEliminar
    else if accion == "modificar" then VModificar
    else VOther
  }

  /** Comparing the lower-cased word with a verb is matching the verb up
      to case. */
  lemma VerbsLowerCase(w: string)
    ensures Lower(w) == "crear" <==> SameUpToCase(w, "crear")
    ensures Lower(w) == "listar" <==> SameUpToCase(w, "listar")
    ensures Lower(w) == "eliminar" <==> SameUpToCase(w, "eliminar")
    ensures Lower(w) == "modificar" <==> SameUpToCase(w, "modificar")
  {
    LowerMatches(w, "crear");
    LowerMatches(w, "listar");
    LowerMatches(w, "eliminar");
    LowerMatches(w, "modificar");
  }

  /** Verb dispatch and tuple unpacking on the words `partes`: no words is
      blank; `crear` and `modificar` take exactly four words and
      `eliminar` exactly two, their arguments being the words after the
      verb in order; `listar` takes any number; any other verb is
      unknown. */
  function Classify(partes: seq<string>): (c: Command)
    ensures c == Blank <==> partes == []
    ensures c.Crear? <==> |partes| == 4 && VerbOf(partes[0]) == VCrear
    ensures c.Crear? ==> c == Crear(partes[1], partes[2], partes[3])
    ensures c.Listar? <==> |partes| > 0 && VerbOf(partes[0]) == VListar
    ensures c.Eliminar? <==> |partes| == 2 && VerbOf(partes[0]) == VEliminar
    ensures c.Eliminar? ==> c == Eliminar(partes[1])
    ensures c.Modificar? <==> |partes| == 4 && VerbOf(partes[0]) == VModificar
    ensures c.Modificar? ==> c == Modificar(partes[1], partes[2], partes[3])
    ensures c.Unknown? <==> |partes| > 0 && VerbOf(partes[0]) == VOther
  {
    if |partes| == 0 then Blank
    else
      match VerbOf(partes[0])
      case VCrear => if |partes| == 4 then Crear(partes[1], partes[2], partes[3]) else BadArity
      case VListar => Listar
      case VEliminar => if |partes| == 2 then Eliminar(partes[1]) else BadArity
      case VModificar => if |partes| == 4 then Modificar(partes[1], partes[2], partes[3]) else BadArity
      case VOther => Unknown
  }

  /** The arguments dispatch takes are words when the input is words, and
      only an empty word list is blank. */
  lemma ClassifyWords(partes: seq<string>)
    requires forall k :: 0 <= k < |partes| ==> IsToken(partes[k])
    ensures var c := Classify(partes);
      && (c == Blank <==> partes == [])
      && (c.Crear? ==> IsToken(c.id) && IsToken(c.nombre) && IsToken(c.prioridad))
      && (c.Eliminar? ==> IsToken(c.id))
      && (c.Modificar? ==> IsToken(c.id) && IsToken(c.campo) && IsToken(c.valor))
  {
  }

  /** `cmd.strip().split()`, then dispatch. A command is blank exactly when
      it is all whitespace, and every argument it carries is a word. */
  function Parse(cmd: string): (c: Command)
    ensures c == Blank <==> AllSpace(cmd)
    ensures c.Crear? ==> IsToken(c.id) && IsToken(c.nombre) && IsToken(c.prioridad)
    ensures c.Eliminar? ==> IsToken(c.id)
    ensures c.Modificar? ==> IsToken(c.id) && IsToken(c.campo) && IsToken(c.valor)
  {
    var partes := Split(Strip(cmd));
    SplitStrip(cmd);
    ClassifyWords(partes);
    Classify(partes)
  }

  /** The reply and the registry after one command. */
  datatype Outcome = Outcome(reply: string, table: Table)

  /** Carries out a parsed command on the registry. Only `crear`,
      `eliminar` and `modificar` can change it. */
  function Execute(c: Command, t: Table): (o: Outcome)
    requires t.Valid()
    ensures o.table.Valid()
    ensures !(c.Crear? || c.Eliminar? || c.Modificar?) ==> o.table == t
  {
    match c
    case Blank => Outcome(MsgBlank, t)
    case Crear(id, nombre, prioridad) =>
      var s := Create(t, id, nombre, prioridad);
      Outcome(s.reply.msg, s.table)
    case Listar => Outcome(Listing(t), t)
    case Eliminar(id) =>
      var s := Delete(t, id);
      Outcome(s.reply.msg, s.table)
    case Modificar(id, campo, valor) =>
      var s := Modify(t, id, campo, valor);
      Outcome(s.reply.msg, s.table)
    case BadArity => Outcome(MsgArity, t)
    case Unknown => Outcome(MsgUnknown, t)
  }

  /** procesar_comando as a function of the command and the registry. */
  function Interpret(cmd: string, t: Table): (o: Outcome)
    requires t.Valid()
    ensures o.table.Valid()
  {
    Execute(Parse(cmd), t)
  }

  /** procesar_comando(cmd), run against the registry object. */
  method ProcessCommand(reg: Registry, cmd: string) returns (reply: string)
    requires reg.Valid()
    modifies reg
    ensures reg.Valid()
    ensures Outcome(reply, reg.Snapshot()) == Interpret(cmd, old(reg.Snapshot()))
  {
    var partes := Split(Strip(cmd));
    if |partes| == 0 {
      return MsgBlank;
    }
    var accion := Lower(partes[0]);
    var ok: bool;
    if accion == "crear" {
      if |partes| != 4 {
        return MsgArity;
      }
      ok, reply := reg.CreateProcess(partes[1], partes[2], partes[3]);
    } else if accion == "listar" {
      reply := reg.ListProcesses();
    } else if accion == "eliminar" {
      if |partes| != 2 {
        return MsgArity;
      }
      ok, reply := reg.DeleteProcess(partes[1]);
    } else if accion == "modificar" {
      if |partes| != 4 {
        return MsgArity;
      }
      ok, reply := reg.ModifyProcess(partes[1], partes[2], partes[3]);
    } else {
      reply := MsgUnknown;
    }
  }

  // =====================================================================
  // Commands written out

  /** The words of a command as a client would send it. */
  function Words(c: Command): seq<string> {
    match c
    case Crear(id, nombre, prioridad) => ["crear", id, nombre, prioridad]
    case Listar => ["listar"]
    case Eliminar(id) => ["eliminar", id]
    case Modificar(id, campo, valor) => ["modificar", id, campo, valor]
    case _ => []
  }

  /** The command text: its words separated by single spaces. */
  function Render(c: Command): string {
    Join(Words(c), " ")
  }

  /** A command that can be written out: a registry operation whose
      arguments are words. */
  predicate Sendable(c: Command) {
    match c
    case Crear(id, nombre, prioridad) => IsToken(id) && IsToken(nombre) && IsToken(prioridad)
    case Listar => true
    case Eliminar(id) => IsToken(id)
    case Modificar(id, campo, valor) => IsToken(id) && IsToken(campo) && IsToken(valor)
    case _ => false
  }

  // =====================================================================
  // Lemmas

  /** Trimming first does not change the words, so a command is parsed
      from `cmd.split()` alone. */
  lemma ParseSplit(cmd: string)
    ensures Parse(cmd) == Classify(Split(cmd))
  {
    SplitStrip(cmd);
  }

  /** The verbs are their own lower-case form. */
  lemma LowerVerbs()
    ensures VerbOf("crear") == VCrear && VerbOf("listar") == VListar
    ensures VerbOf("eliminar") == VEliminar && VerbOf("modificar") == VModificar
  {
    assert SameUpToCase("crear", "crear");
    assert SameUpToCase("listar", "listar");
    assert SameUpToCase("eliminar", "eliminar");
    assert SameUpToCase("modificar", "modificar");
  }

  /** Upper- and mixed-case spellings of a verb dispatch like the verb. */
  lemma UpperVerbs()
    ensures VerbOf("CREAR") == VerbOf("Crear") == VCrear
    ensures VerbOf("LISTAR") == VListar && VerbOf("ELIMINAR") == VEliminar
    ensures VerbOf("MODIFICAR") == VModificar
  {
    assert SameUpToCase("CREAR", "crear");
    assert SameUpToCase("Crear", "crear");
    assert SameUpToCase("LISTAR", "listar");
    assert SameUpToCase("ELIMINAR", "eliminar");
    assert SameUpToCase("MODIFICAR", "modificar");
  }

  /** Every word of a sendable command is a word. */
  lemma WordsAreTokens(c: Command)
    requires Sendable(c)
    ensures forall k :: 0 <= k < |Words(c)| ==> IsToken(Words(c)[k])
  {
    assert IsToken("crear") && IsToken("listar") && IsToken("eliminar") && IsToken("modificar");
  }

  /** The words of a sendable command dispatch back to the command. */
  lemma ClassifyWordsOf(c: Command)
    requires Sendable(c)
    ensures Classify(Words(c)) == c
  {
    LowerVerbs();
  }

  /** Words joined by single spaces are parsed as those words. */
  lemma ParseJoin(partes: seq<string>)
    requires forall k :: 0 <= k < |partes| ==> IsToken(partes[k])
    ensures Parse(Join(partes, " ")) == Classify(partes)
  {
    SplitJoin(partes);
    ParseSplit(Join(partes, " "));
  }

  /** Writing a command out and parsing it gives the command back. */
  lemma ParseRender(c: Command)
    requires Sendable(c)
    ensures Parse(Render(c)) == c
  {
    WordsAreTokens(c);
    ParseJoin(Words(c));
    ClassifyWordsOf(c);
  }

  /** A blank command is answered with the empty-command message and
      changes nothing. */
  lemma BlankCommand(cmd: string, t: Table)
    requires t.Valid()
    requires AllSpace(cmd)
    ensures Interpret(cmd, t) == Outcome(MsgBlank, t)
  {
  }

  /** Dispatch depends on the first word only through its lower-case
      form. */
  lemma ClassifyCaseInsensitive(w: seq<string>, w': seq<string>)
    requires |w| > 0 && |w'| > 0
    requires Lower(w[0]) == Lower(w'[0])
    requires w[1..] == w'[1..]
    ensures Classify(w) == Classify(w')
  {
    assert |w| == |w'|;
    assert VerbOf(w[0]) == VerbOf(w'[0]);
    assert forall k :: 1 <= k < |w| ==> w[k] == w'[k] by {
      forall k | 1 <= k < |w| ensures w[k] == w'[k] {
        assert w[k] == w[1..][k - 1];
      }
    }
  }

  /** The verb is compared case-insensitively: two commands with the same
      arguments and verbs that lower-case alike are parsed alike. */
  lemma VerbCaseInsensitive(cmd: string, cmd': string)
    requires |Split(cmd)| > 0 && |Split(cmd')| > 0
    requires Lower(Split(cmd)[0]) == Lower(Split(cmd')[0])
    requires Split(cmd)[1..] == Split(cmd')[1..]
    ensures Parse(cmd) == Parse(cmd')
  {
    ParseSplit(cmd);
    ParseSplit(cmd');
    ClassifyCaseInsensitive(Split(cmd), Split(cmd'));
  }

  /** `listar` ignores any further words and answers with the listing. */
  lemma ListarIgnoresArguments(cmd: string, t: Table)
    requires t.Valid()
    requires |Split(cmd)| > 0 && Lower(Split(cmd)[0]) == "listar"
    ensures Interpret(cmd, t) == Outcome(Listing(t), t)
  {
    ParseSplit(cmd);
  }

  /** `crear` and `modificar` need exactly four words, `eliminar` exactly
      two; any other count is answered with the arity message before the
      registry is touched. */
  lemma WrongArity(cmd: string, t: Table)
    requires t.Valid()
    requires |Split(cmd)| > 0
    requires var v, n := Lower(Split(cmd)[0]), |Split(cmd)|;
      (v == "crear" && n != 4) || (v == "eliminar" && n != 2) || (v == "modificar" && n != 4)
    ensures Interpret(cmd, t) == Outcome(MsgArity, t)
  {
    ParseSplit(cmd);
  }

  /** An unknown verb is answered with the unknown-command message and
      changes nothing. */
  lemma UnknownVerb(cmd: string, t: Table)
    requires t.Valid()
    requires |Split(cmd)| > 0
    requires Lower(Split(cmd)[0]) !in {"crear", "listar", "eliminar", "modificar"}
    ensures Interpret(cmd, t) == Outcome(MsgUnknown, t)
  {
    ParseSplit(cmd);
  }

  /** A `crear` of four words unpacks the other three as id, name and
      priority. */
  lemma ParseCrear(cmd: string)
    requires |Split(cmd)| == 4 && Lower(Split(cmd)[0]) == "crear"
    ensures var w := Split(cmd); Parse(cmd) == Crear(w[1], w[2], w[3])
  {
    ParseSplit(cmd);
  }

  /** An `eliminar` of two words unpacks the second as the id. */
  lemma ParseEliminar(cmd: string)
    requires |Split(cmd)| == 2 && Lower(Split(cmd)[0]) == "eliminar"
    ensures Parse(cmd) == Eliminar(Split(cmd)[1])
  {
    ParseSplit(cmd);
  }

  /** A `modificar` of four words unpacks the other three as id, field
      and value. */
  lemma ParseModificar(cmd: string)
    requires |Split(cmd)| == 4 && Lower(Split(cmd)[0]) == "modificar"
    ensures var w := Split(cmd); Parse(cmd) == Modificar(w[1], w[2], w[3])
  {
    ParseSplit(cmd);
  }

  /** A well-formed `crear`, `eliminar` or `modificar` passes the
      registry's message back, drops the success flag, and leaves the
      registry as the registry operation does. */
  lemma CrearPassesThrough(cmd: string, t: Table)
    requires t.Valid()
    requires |Split(cmd)| == 4 && Lower(Split(cmd)[0]) == "crear"
    ensures var w := Split(cmd); var s := Create(t, w[1], w[2], w[3]);
      Interpret(cmd, t) == Outcome(s.reply.msg, s.table)
  {
    ParseCrear(cmd);
  }

  lemma EliminarPassesThrough(cmd: string, t: Table)
    requires t.Valid()
    requires |Split(cmd)| == 2 && Lower(Split(cmd)[0]) == "eliminar"
    ensures var s := Delete(t, Split(cmd)[1]);
      Interpret(cmd, t) == Outcome(s.reply.msg, s.table)
  {
    ParseEliminar(cmd);
  }

  lemma ModificarPassesThrough(cmd: string, t: Table)
    requires t.Valid()
    requires |Split(cmd)| == 4 && Lower(Split(cmd)[0]) == "modificar"
    ensures var w := Split(cmd); var s := Modify(t, w[1], w[2], w[3]);
      Interpret(cmd, t) == Outcome(s.reply.msg, s.table)
  {
    ParseModificar(cmd);
  }

  // =====================================================================
  // A session

  /** The registry holding the single entry `id: rec`. */
  function Single(id: string, rec: Record): (t: Table)
    ensures t.Valid() && id in t.procesos
  {
    var t := Table(map[id := rec], [id]);
    assert t.order[0] == id;
    t
  }

  /** A registry holding one entry lists exactly that entry's line. */
  lemma ListingSingle(id: string, rec: Record)
    ensures Listing(Single(id, rec)) == Line(id, rec)
  {
    assert Lines(Single(id, rec)) == [Line(id, rec)];
  }

  /** `crear` on the empty registry creates the one entry, active. */
  lemma SessionCreate(id: string, nombre: string, prioridad: string)
    requires IsToken(id) && IsToken(nombre) && IsToken(prioridad)
    ensures Interpret(Render(Crear(id, nombre, prioridad)), EmptyTable)
      == Outcome(MsgCreated(id), Single(id, Record(nombre, prioridad, Activo)))
  {
    ParseRender(Crear(id, nombre, prioridad));
  }

  /** `listar` on a one-entry registry answers with the entry's line. */
  lemma SessionList(id: string, rec: Record)
    ensures Interpret(Render(Listar), Single(id, rec)) == Outcome(Line(id, rec), Single(id, rec))
  {
    ParseRender(Listar);
    ListingSingle(id, rec);
  }

  /** Changing the priority of the only entry. */
  lemma ModifySingle(id: string, nombre: string, prioridad: string, valor: string)
    ensures Modify(Single(id, Record(nombre, prioridad, Activo)), id, "prioridad", valor)
      == Step(Single(id, Record(nombre, valor, Activo)), Reply(true, MsgUpdated(id)))
  {
  }

  /** `modificar id prioridad v` changes the priority of the entry. */
  lemma SessionModify(id: string, nombre: string, prioridad: string, valor: string)
    requires IsToken(id) && IsToken(valor)
    ensures Interpret(Render(Modificar(id, "prioridad", valor)), Single(id, Record(nombre, prioridad, Activo)))
      == Outcome(MsgUpdated(id), Single(id, Record(nombre, valor, Activo)))
  {
    assert IsToken("prioridad");
    ParseRender(Modificar(id, "prioridad", valor));
    ModifySingle(id, nombre, prioridad, valor);
  }

  /** Deleting the only entry leaves the empty registry; deleting from the
      empty registry finds nothing. */
  lemma DeleteSingle(id: string, rec: Record)
    ensures Delete(Single(id, rec), id) == Step(EmptyTable, Reply(true, MsgDeleted(id)))
    ensures Delete(EmptyTable, id) == Step(EmptyTable, Reply(false, MsgNotFound))
  {
    assert Remove([id], id) == [];
  }

  /** `eliminar` removes the entry, and a second one finds nothing. */
  lemma SessionDelete(id: string, rec: Record)
    requires IsToken(id)
    ensures Interpret(Render(Eliminar(id)), Single(id, rec)) == Outcome(MsgDeleted(id), EmptyTable)
    ensures Interpret(Render(Eliminar(id)), EmptyTable) == Outcome(MsgNotFound, EmptyTable)
  {
    ParseRender(Eliminar(id));
    DeleteSingle(id, rec);
  }

  /** The session of a client on an empty registry: create, list, change
      the priority, list, delete, list, and delete once more. */
  lemma Session(id: string, nombre: string, prioridad: string, valor: string)
    requires IsToken(id) && IsToken(nombre) && IsToken(prioridad) && IsToken(valor)
    ensures var o1 := Interpret(Render(Crear(id, nombre, prioridad)), EmptyTable);
      && o1.reply == MsgCreated(id)
      && var o2 := Interpret(Render(Listar), o1.table);
      && o2.reply == Line(id, Record(nombre, prioridad, Activo))
      && var o3 := Interpret(Render(Modificar(id, "prioridad", valor)), o2.table);
      && o3.reply == MsgUpdated(id)
      && var o4 := Interpret(Render(Listar), o3.table);
      && o4.reply == Line(id, Record(nombre, valor, Activo))
      && var o5 := Interpret(Render(Eliminar(id)), o4.table);
      && o5.reply == MsgDeleted(id)
      && Interpret(Render(Listar), o5.table).reply == MsgEmpty
      && Interpret(Render(Eliminar(id)), o5.table).reply == MsgNotFound
  {
    SessionCreate(id, nombre, prioridad);
    SessionList(id, Record(nombre, prioridad, Activo));
    SessionModify(id, nombre, prioridad, valor);
    SessionList(id, Record(nombre, valor, Activo));
    SessionDelete(id, Record(nombre, valor, Activo));
    ParseRender(Listar);
  }
}
