/**
 * The in-memory process registry of process_manager.py.
 *
 * The source keeps a module-level dictionary `procesos` from a
 * caller-chosen id to a record `{"nombre": _, "prioridad": _, "estado": _}`.
 * A Python 3 dict iterates in insertion order, so its abstract value is a
 * map together with the sequence of its keys in insertion order: a `Table`.
 * The functions on `Table` specify each operation; the class `Registry`
 * holds the same two parts as fields and performs the operations in place.
 */
module ProcessManager {
  import opened PyStr

  const Activo: string := "activo"
  const MsgExists: string := "Proceso ya existe."
  const MsgNotFound: string := "Proceso no encontrado."
  const MsgBadField: string := "Campo inválido."
  const MsgEmpty: string := "Sin procesos."

  function MsgCreated(id: string): string { "Proceso " + id + " creado." }
  function MsgDeleted(id: string): string { "Proceso " + id + " eliminado." }
  function MsgUpdated(id: string): string { "Proceso " + id + " actualizado." }

  /** The keys every record has, and so the only field names `modificar`
      accepts. */
  predicate IsField(campo: string) {
    campo == "nombre" || campo == "prioridad" || campo == "estado"
  }

  /** One process record. Its three keys are fixed; only their values
      change. */
  datatype Record = Record(nombre: string, prioridad: string, estado: string) {

    function Get(campo: string): string
      requires IsField(campo)
    {
      if campo == "nombre" then nombre
      else if campo == "prioridad" then prioridad
      else estado
    }

    /** The record with the value of `campo` replaced by `valor`. */
    function With(campo: string, valor: string): (r: Record)
      requires IsField(campo)
      ensures r.Get(campo) == valor
      ensures forall f :: IsField(f) && f != campo ==> r.Get(f) == Get(f)
    {
      if campo == "nombre" then this.(nombre := valor)
      else if campo == "prioridad" then this.(prioridad := valor)
      else this.(estado := valor)
    }
  }

  /** The `(ok, message)` pair every mutating operation returns. */
  datatype Reply = Reply(ok: bool, msg: string)

  predicate Distinct(s: seq<string>) {
    forall i, j :: 0 <= i < j < |s| ==> s[i] != s[j]
  }

  /** The dictionary `procesos`: its entries and its keys in insertion
      order. */
  datatype Table = Table(procesos: map<string, Record>, order: seq<string>) {
    ghost predicate Valid() {
      && Distinct(order)
      && (forall k :: k in procesos <==> k in order)
    }
  }

  /** The table after an operation, and the operation's reply. */
  datatype Step = Step(table: Table, reply: Reply)

  /** The table `procesos = {}` starts as, and `clear()` leaves. */
  const EmptyTable: Table := Table(map[], [])

  /** `order` without `id`; the other keys keep their relative order. */
  function Remove(order: seq<string>, id: string): (r: seq<string>)
    requires Distinct(order)
    ensures Distinct(r)
    ensures forall k :: k in r <==> k in order && k != id
  {
    if |order| == 0 then []
    else if order[0] == id then Remove(order[1..], id)
    else
      var rest := Remove(order[1..], id);
      assert order[0] !in order[1..];
      assert forall j :: 0 <= j < |rest| ==> rest[j] in order[1..];
      [order[0]] + rest
  }

  /** Removing the key at position `i` closes the gap it leaves. */
  lemma {:induction false} RemoveAt(order: seq<string>, id: string, i: nat)
    requires Distinct(order)
    requires i < |order| && order[i] == id
    ensures Remove(order, id) == order[..i] + order[i + 1..]
  {
    if i == 0 {
      RemoveAbsent(order[1..], id);
    } else {
      RemoveAt(order[1..], id, i - 1);
      assert order[..i] == [order[0]] + order[1..][..i - 1];
      assert order[i + 1..] == order[1..][i..];
    }
  }

  /** Removing a key that is not there changes nothing. */
  lemma {:induction false} RemoveAbsent(order: seq<string>, id: string)
    requires Distinct(order)
    requires id !in order
    ensures Remove(order, id) == order
  {
    if |order| > 0 {
      RemoveAbsent(order[1..], id);
      assert order == [order[0]] + order[1..];
    }
  }

  /** crear_proceso: a new id gets a record in state "activo" at the end of
      the order; an existing id is left alone. */
  function Create(t: Table, id: string, nombre: string, prioridad: string): (r: Step)
    requires t.Valid()
    ensures r.table.Valid()
    ensures r.reply.ok <==> id !in t.procesos
    ensures id in t.procesos ==> r == Step(t, Reply(false, MsgExists))
    ensures id !in t.procesos ==>
      && r.reply.msg == MsgCreated(id)
      && r.table.procesos.Keys == t.procesos.Keys + {id}
      && r.table.procesos[id] == Record(nombre, prioridad, Activo)
      && (forall k :: k in t.procesos ==> r.table.procesos[k] == t.procesos[k])
      && r.table.order == t.order + [id]
  {
    if id in t.procesos then Step(t, Reply(false, MsgExists))
    else
      var t' := Table(t.procesos[id := Record(nombre, prioridad, Activo)], t.order + [id]);
      Step(t', Reply(true, MsgCreated(id)))
  }

  /** eliminar_proceso: a present id loses its entry and its place in the
      order; an absent id is reported not found. */
  function Delete(t: Table, id: string): (r: Step)
    requires t.Valid()
    ensures r.table.Valid()
    ensures r.reply.ok <==> id in t.procesos
    ensures id !in t.procesos ==> r == Step(t, Reply(false, MsgNotFound))
    ensures id in t.procesos ==>
      && r.reply.msg == MsgDeleted(id)
      && r.table.procesos.Keys == t.procesos.Keys - {id}
      && (forall k :: k in r.table.procesos ==> r.table.procesos[k] == t.procesos[k])
      && (forall i :: 0 <= i < |t.order| && t.order[i] == id ==>
            r.table.order == t.order[..i] + t.order[i + 1..])
  {
    if id in t.procesos then
      assert forall i :: 0 <= i < |t.order| && t.order[i] == id ==>
        Remove(t.order, id) == t.order[..i] + t.order[i + 1..] by {
        forall i | 0 <= i < |t.order| && t.order[i] == id {
          RemoveAt(t.order, id, i);
        }
      }
      Step(Table(t.procesos - {id}, Remove(t.order, id)), Reply(true, MsgDeleted(id)))
    else Step(t, Reply(false, MsgNotFound))
  }

  /** modificar_proceso: an absent id is reported first, then a field name
      that is not one of the record's keys; otherwise exactly that field of
      that record takes the new value. */
  function Modify(t: Table, id: string, campo: string, valor: string): (r: Step)
    requires t.Valid()
    ensures r.table.Valid()
    ensures r.reply.ok <==> id in t.procesos && IsField(campo)
    ensures id !in t.procesos ==> r == Step(t, Reply(false, MsgNotFound))
    ensures id in t.procesos && !IsField(campo) ==> r == Step(t, Reply(false, MsgBadField))
    ensures r.reply.ok ==>
      && r.reply.msg == MsgUpdated(id)
      && r.table.order == t.order
      && r.table.procesos.Keys == t.procesos.Keys
      && r.table.procesos[id].Get(campo) == valor
      && (forall f :: IsField(f) && f != campo ==>
            r.table.procesos[id].Get(f) == t.procesos[id].Get(f))
      && (forall k :: k in t.procesos && k != id ==> r.table.procesos[k] == t.procesos[k])
  {
    if id !in t.procesos then Step(t, Reply(false, MsgNotFound))
    else if !IsField(campo) then Step(t, Reply(false, MsgBadField))
    else
      var rec := t.procesos[id].With(campo, valor);
      Step(Table(t.procesos[id := rec], t.order), Reply(true, MsgUpdated(id)))
  }

  /** `str` of a record dict: its keys in creation order, each value as
      `repr` writes it. It is wrapped in braces. */
  function RecordText(rec: Record): (r: string)
    ensures |r| >= 2 && r[0] == '{' && r[|r| - 1] == '}'
  {
    "{'nombre': " + Repr(rec.nombre) + ", 'prioridad': " + Repr(rec.prioridad)
      + ", 'estado': " + Repr(rec.estado) + "}"
  }

  /** The listing line of one entry, `f"{pid}: {info}"`: the id, then
      `": "`, then the record's braces. */
  function Line(id: string, rec: Record): (r: string)
    ensures id <= r
    ensures |r| > |id| + 2 && r[|id|] == ':' && r[|id| + 1] == ' ' && r[|id| + 2] == '{'
    ensures r[|r| - 1] == '}'
  {
    var r := id + ": " + RecordText(rec);
    assert r == id + (": " + RecordText(rec));
    r
  }

  /** One line per entry, in insertion order. */
  function Lines(t: Table): (r: seq<string>)
    requires t.Valid()
    ensures |r| == |t.order|
  {
    seq(|t.order|, i requires 0 <= i < |t.order| => Line(t.order[i], t.procesos[t.order[i]]))
  }

  /** The lines of a non-empty registry, joined, are never the
      empty-registry text: they start with an id and `": {"`. */
  lemma JoinedLinesNotEmptyText(t: Table)
    requires t.Valid() && t.procesos != map[]
    ensures Join(Lines(t), "\n") != MsgEmpty
  {
    var k :| k in t.procesos;
    assert k in t.order;
    var id := t.order[0];
    var first := Line(id, t.procesos[id]);
    var s := Join(Lines(t), "\n");
    assert Lines(t)[0] == first;
    BraceNotEmptyText(s, |id| + 2);
  }

  /** A text with a brace in it is not the empty-registry text. */
  lemma BraceNotEmptyText(s: string, i: nat)
    requires i < |s| && s[i] == '{'
    ensures s != MsgEmpty
  {
    assert '{' !in MsgEmpty;
  }

  /** listar_procesos: the fixed text for an empty registry, otherwise the
      lines joined by newlines. The listing is the empty-registry text
      exactly when the registry is empty. */
  function Listing(t: Table): (r: string)
    requires t.Valid()
    ensures r == MsgEmpty <==> t.procesos == map[]
  {
    if t.procesos == map[] then MsgEmpty
    else
      JoinedLinesNotEmptyText(t);
      Join(Lines(t), "\n")
  }

  // =====================================================================
  // Lemmas about the operations

  /** No listing line holds a line break when the id does not: every value
      is written by `repr`, which escapes line breaks. */
  lemma LineHasNoBreak(id: string, rec: Record)
    requires '\n' !in id
    ensures '\n' !in Line(id, rec)
  {
  }

  /** Splitting a non-empty listing at its line breaks gives back one line
      per entry, in insertion order, as long as no id holds a line break. */
  lemma ListingLines(t: Table)
    requires t.Valid()
    requires t.procesos != map[]
    requires forall k :: k in t.procesos ==> '\n' !in k
    ensures SplitAt(Listing(t), '\n') == Lines(t)
  {
    var k :| k in t.procesos;
    var lines := Lines(t);
    forall i | 0 <= i < |lines| ensures '\n' !in lines[i] {
      LineHasNoBreak(t.order[i], t.procesos[t.order[i]]);
    }
    SplitAtJoin(lines, '\n');
  }

  /** What a listing holds: the empty-registry text exactly when the
      registry is empty, and otherwise one line per entry in insertion
      order. */
  lemma ListingShape(t: Table)
    requires t.Valid()
    ensures Listing(t) == MsgEmpty <==> t.procesos == map[]
    ensures t.procesos != map[] && (forall k :: k in t.procesos ==> '\n' !in k) ==>
      SplitAt(Listing(t), '\n') == Lines(t)
  {
    if t.procesos != map[] && (forall k :: k in t.procesos ==> '\n' !in k) {
      ListingLines(t);
    }
  }

  /** Creating a new id appends exactly its line to the lines. */
  lemma CreateAppendsLine(t: Table, id: string, nombre: string, prioridad: string)
    requires t.Valid()
    requires id !in t.procesos
    ensures Lines(Create(t, id, nombre, prioridad).table)
      == Lines(t) + [Line(id, Record(nombre, prioridad, Activo))]
  {
    var t' := Create(t, id, nombre, prioridad).table;
    var lines, lines' := Lines(t), Lines(t');
    forall i | 0 <= i < |t.order|
      ensures lines'[i] == lines[i]
    {
      assert t'.order[i] == t.order[i];
    }
  }

  /** Creating a new id appends a line break and its line to the listing,
      or makes its line the whole listing when the registry was empty. */
  lemma CreateExtendsListing(t: Table, id: string, nombre: string, prioridad: string)
    requires t.Valid()
    requires id !in t.procesos
    ensures var l := Line(id, Record(nombre, prioridad, Activo));
      Listing(Create(t, id, nombre, prioridad).table)
        == if t.procesos == map[] then l else Listing(t) + "\n" + l
  {
    var l := Line(id, Record(nombre, prioridad, Activo));
    CreateAppendsLine(t, id, nombre, prioridad);
    JoinAppend(Lines(t), l, "\n");
    if t.procesos == map[] {
      assert t.order == [];
    } else {
      var k :| k in t.procesos;
      assert k in t.order;
    }
  }

  /** Dropping the key at position `i`, keeping every other record, drops
      the line at position `i`. */
  lemma LinesDropAt(t: Table, t': Table, i: nat)
    requires t.Valid() && t'.Valid()
    requires i < |t.order| && t'.order == t.order[..i] + t.order[i + 1..]
    requires forall k :: k in t'.procesos ==> t'.procesos[k] == t.procesos[k]
    ensures Lines(t') == Lines(t)[..i] + Lines(t)[i + 1..]
  {
    var lines, lines' := Lines(t), Lines(t');
    var dropped := lines[..i] + lines[i + 1..];
    assert |lines'| == |dropped|;
    forall j | 0 <= j < |lines'|
      ensures lines'[j] == dropped[j]
    {
      var k := if j < i then j else j + 1;
      var key := t'.order[j];
      assert key == t.order[k];
      assert key in t'.order;
      assert t'.procesos[key] == t.procesos[key];
      assert lines'[j] == Line(key, t'.procesos[key]);
      assert lines[k] == Line(key, t.procesos[key]);
      assert dropped[j] == lines[k];
    }
  }

  /** Deleting a present id drops exactly its line from the listing. */
  lemma DeleteDropsLine(t: Table, id: string, i: nat)
    requires t.Valid()
    requires i < |t.order| && t.order[i] == id
    ensures Lines(Delete(t, id).table) == Lines(t)[..i] + Lines(t)[i + 1..]
  {
    assert id in t.procesos;
    LinesDropAt(t, Delete(t, id).table, i);
  }

  /** A successful modification rewrites only the line of that id. */
  lemma ModifyRewritesLine(t: Table, id: string, campo: string, valor: string, i: nat)
    requires t.Valid()
    requires i < |t.order| && t.order[i] == id && IsField(campo)
    ensures Lines(Modify(t, id, campo, valor).table)
      == Lines(t)[i := Line(id, t.procesos[id].With(campo, valor))]
  {
  }

  /** Deleting a just-created id restores the registry exactly, order
      included. */
  lemma CreateThenDelete(t: Table, id: string, nombre: string, prioridad: string)
    requires t.Valid()
    requires id !in t.procesos
    ensures Delete(Create(t, id, nombre, prioridad).table, id) == Step(t, Reply(true, MsgDeleted(id)))
  {
    var t' := Create(t, id, nombre, prioridad).table;
    var n := |t.order|;
    assert t'.order[n] == id;
    assert t'.order[..n] + t'.order[n + 1..] == t.order;
    assert t'.procesos - {id} == t.procesos;
  }

  /** A second deletion of the same id always reports not found and changes
      nothing. */
  lemma DeleteTwice(t: Table, id: string)
    requires t.Valid()
    ensures var t' := Delete(t, id).table;
      Delete(t', id) == Step(t', Reply(false, MsgNotFound))
  {
  }

  /** Creating an id that is already present neither overwrites its record
      nor moves it, whatever the new name and priority. */
  lemma CreateExistingKeepsRecord(t: Table, id: string, nombre: string, prioridad: string)
    requires t.Valid()
    requires id in t.procesos
    ensures Listing(Create(t, id, nombre, prioridad).table) == Listing(t)
  {
  }

  // The constant text between the quoted values of a listing line.
  lemma OpenNombre() ensures "{'nombre': " + "'" == "{'nombre': '" {}
  lemma OpenPrioridad() ensures "'" + ", 'prioridad': " + "'" == "', 'prioridad': '" {}
  lemma OpenEstado() ensures "'" + ", 'estado': " + "'" == "', 'estado': '" {}
  lemma CloseRecord() ensures "'" + "}" == "'}" {}

  /** A listing line around three quoted values, regrouped. */
  lemma LineLayout(id: string, n: string, p: string, e: string)
    ensures id + ": " + ("{'nombre': " + ("'" + n + "'") + ", 'prioridad': " + ("'" + p + "'")
        + ", 'estado': " + ("'" + e + "'") + "}")
      == id + ": " + "{'nombre': '" + n + "', 'prioridad': '" + p + "', 'estado': '" + e + "'}"
  {
    OpenNombre();
    OpenPrioridad();
    OpenEstado();
    CloseRecord();
    var a, b, c, d := "{'nombre': '", "', 'prioridad': '", "', 'estado': '", "'}";
    calc {
      id + ": " + ("{'nombre': " + ("'" + n + "'") + ", 'prioridad': " + ("'" + p + "'")
        + ", 'estado': " + ("'" + e + "'") + "}");
      id + ": " + (("{'nombre': " + "'") + n + ("'" + ", 'prioridad': " + "'") + p
        + ("'" + ", 'estado': " + "'") + e + ("'" + "}"));
      id + ": " + (a + n + b + p + c + e + d);
      id + ": " + a + n + b + p + c + e + d;
    }
  }

  /** With plain field values a listing line reads
      `id: {'nombre': 'n', 'prioridad': 'p', 'estado': 'e'}`. */
  lemma LinePlain(id: string, rec: Record)
    requires Plain(rec.nombre) && Plain(rec.prioridad) && Plain(rec.estado)
    ensures Line(id, rec) == id + ": " + "{'nombre': '" + rec.nombre + "', 'prioridad': '"
      + rec.prioridad + "', 'estado': '" + rec.estado + "'}"
  {
    ReprPlain(rec.nombre);
    ReprPlain(rec.prioridad);
    ReprPlain(rec.estado);
    LineLayout(id, rec.nombre, rec.prioridad, rec.estado);
  }

  // =====================================================================
  // The registry object

  /** The dictionary `procesos`, updated in place by the four operations. */
  class Registry {
    var procesos: map<string, Record>
    var order: seq<string>

    ghost predicate Valid()
      reads this
    {
      Snapshot().Valid()
    }

    /** The registry's current value. */
    function Snapshot(): Table
      reads this
    {
      Table(procesos, order)
    }

    /** `procesos = {}` */
    constructor ()
      ensures Valid()
      ensures Snapshot() == EmptyTable
    {
      procesos := map[];
      order := [];
    }

    /** crear_proceso(id_, nombre, prioridad) */
    method CreateProcess(id: string, nombre: string, prioridad: string) returns (ok: bool, msg: string)
      requires Valid()
      modifies this
      ensures Valid()
      ensures Step(Snapshot(), Reply(ok, msg)) == Create(old(Snapshot()), id, nombre, prioridad)
    {
      if id in procesos {
        return false, MsgExists;
      }
      procesos := procesos[id := Record(nombre, prioridad, Activo)];
      order := order + [id];
      return true, MsgCreated(id);
    }

    /** listar_procesos() */
    function ListProcesses(): (s: string)
      reads this
      requires Valid()
      ensures s == MsgEmpty <==> procesos == map[]
      ensures procesos != map[] && (forall k :: k in procesos ==> '\n' !in k) ==>
        SplitAt(s, '\n') == Lines(Snapshot())
    {
      ListingShape(Snapshot());
      Listing(Snapshot())
    }

    /** eliminar_proceso(id_) */
    method DeleteProcess(id: string) returns (ok: bool, msg: string)
      requires Valid()
      modifies this
      ensures Valid()
      ensures Step(Snapshot(), Reply(ok, msg)) == Delete(old(Snapshot()), id)
    {
      if id in procesos {
        procesos := procesos - {id};
        order := Remove(order, id);
        return true, MsgDeleted(id);
      }
      return false, MsgNotFound;
    }

    /** modificar_proceso(id_, campo, valor) */
    method ModifyProcess(id: string, campo: string, valor: string) returns (ok: bool, msg: string)
      requires Valid()
      modifies this
      ensures Valid()
      ensures Step(Snapshot(), Reply(ok, msg)) == Modify(old(Snapshot()), id, campo, valor)
    {
      if id !in procesos {
        return false, MsgNotFound;
      }
      if !IsField(campo) {
        return false, MsgBadField;
      }
      procesos := procesos[id := procesos[id].With(campo, valor)];
      return true, MsgUpdated(id);
    }

    /** reiniciar_procesos(): `procesos.clear()` */
    method Reset()
      modifies this
      ensures Valid()
      ensures Snapshot() == EmptyTable
    {
      procesos := map[];
      order := [];
    }
  }
}
