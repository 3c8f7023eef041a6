/**
 * The client list screen, without Swing: a cache of the clients last
 * read from the repository, the rows the table shows, and the toasts the
 * screen asks for. The local search filters the cache into rows; editing
 * looks the selected row's id up in the cache.
 */
module ClientesTable {
  import opened Wrappers
  import opened JavaText
  import opened Clientes
  import opened Toasts

  /** A table row: id, cédula, name, telephone, hair type and extensions. */
  datatype Row = Row(
    id: int,
    cedula: Option<string>,
    nombre: Option<string>,
    telefono: Option<string>,
    tipoCabello: Option<TipoCabello>,
    tipoExtensiones: Option<string>)

  /** The row built for a client. */
  function RowOf(d: ClienteData): (r: Row)
    ensures r.id == d.id && r.cedula == d.cedula && r.nombre == d.nombreCompleto
    ensures r.telefono == d.telefono && r.tipoCabello == d.tipoCabello && r.tipoExtensiones == d.tipoExtensiones
  {
    Row(d.id, d.cedula, d.nombreCompleto, d.telefono, d.tipoCabello, d.tipoExtensiones)
  }

  /** A toast the screen asks for; it appears later, and only if the screen is still displayable. */
  datatype ToastRequest = ToastRequest(kind: ToastType, message: string)

  const SelectFirstMessage := "Selecciona un cliente de la tabla"
  const NotFoundMessage := "Error: Cliente no encontrado. Recargando lista..."
  const LoadErrorPrefix := "Error al cargar clientes: "

  /** The search text as matched: lower-cased, then trimmed. */
  function SearchKey(query: string): (k: string)
    ensures |k| <= |query|
    ensures k == [] || (!IsTrimmed(k[0]) && !IsTrimmed(k[|k| - 1]))
  {
    Trim(ToLower(query))
  }

  /** Lower-casing neither adds nor removes trimmable chars. */
  lemma LowerKeepsTrimmable(s: string)
    ensures forall i :: 0 <= i < |s| ==> (IsTrimmed(ToLower(s)[i]) <==> IsTrimmed(s[i]))
  {
  }

  /** The search key is empty exactly when the typed query is blank. */
  lemma SearchKeyEmptyIffBlank(query: string)
    ensures SearchKey(query) == [] <==> IsBlank(query)
  {
    LowerKeepsTrimmable(query);
    BlankIffAllTrimmable(query);
    BlankIffAllTrimmable(ToLower(query));
  }

  /**
   * The filter condition on one client, evaluated left to right: true on
   * an empty key; otherwise the name is lower-cased, which throws a
   * NullPointerException (None) for a client without a name; then the
   * cédula, if there is one.
   */
  function RowMatches(q: string, d: ClienteData): (r: Option<bool>)
    ensures r.None? <==> q != [] && d.nombreCompleto.None?
    ensures q == [] ==> r == Some(true)
    ensures r == Some(false) ==>
      !Contains(ToLower(d.nombreCompleto.value), q) && (d.cedula.None? || !Contains(ToLower(d.cedula.value), q))
  {
    if q == [] then Some(true)
    else if d.nombreCompleto.None? then None
    else Some(Contains(ToLower(d.nombreCompleto.value), q) ||
              (d.cedula.Some? && Contains(ToLower(d.cedula.value), q)))
  }

  /** The rows a filter run adds, and whether it stopped on a NullPointerException. */
  datatype Filtered = Filtered(rows: seq<Row>, npe: bool)

  /** filterData over a cache, as a function: rows in cache order, cut short by the first exception. */
  function Filter(ds: seq<ClienteData>, q: string): (f: Filtered)
    ensures |f.rows| <= |ds|
  {
    if ds == [] then Filtered([], false)
    else
      var f := Filter(ds[..|ds| - 1], q);
      var d := ds[|ds| - 1];
      if f.npe then f
      else match RowMatches(q, d)
        case None => Filtered(f.rows, true)
        case Some(true) => Filtered(f.rows + [RowOf(d)], false)
        case Some(false) => f
  }

  /** Filtering a cache in two parts: an exception in the first part ends the run, otherwise the rows join. */
  lemma {:induction false} FilterAppend(a: seq<ClienteData>, b: seq<ClienteData>, q: string)
    ensures Filter(a + b, q) ==
              if Filter(a, q).npe then Filter(a, q)
              else Filtered(Filter(a, q).rows + Filter(b, q).rows, Filter(b, q).npe)
    decreases |b|
  {
    if b == [] {
      assert a + b == a;
    } else {
      var b' := b[..|b| - 1];
      assert (a + b)[..|a + b| - 1] == a + b';
      assert (a + b)[|a + b| - 1] == b[|b| - 1];
      FilterAppend(a, b', q);
      if !Filter(a, q).npe && !Filter(b', q).npe {
        var ra, rb := Filter(a, q).rows, Filter(b', q).rows;
        assert ra + rb + [RowOf(b[|b| - 1])] == ra + (rb + [RowOf(b[|b| - 1])]);
      }
    }
  }

  /** The filter of one client. */
  lemma FilterOne(d: ClienteData, q: string)
    ensures Filter([d], q) ==
              match RowMatches(q, d)
              case None => Filtered([], true)
              case Some(true) => Filtered([RowOf(d)], false)
              case Some(false) => Filtered([], false)
  {
    assert [d][..0] == [];
  }

  /** The run throws exactly when the key is non-empty and some cached client has no name. */
  lemma {:induction false} FilterNpeIff(ds: seq<ClienteData>, q: string)
    ensures Filter(ds, q).npe <==> q != [] && exists i :: 0 <= i < |ds| && ds[i].nombreCompleto.None?
  {
    if ds != [] {
      var init := ds[..|ds| - 1];
      FilterNpeIff(init, q);
      if q != [] && exists i :: 0 <= i < |ds| && ds[i].nombreCompleto.None? {
        var i :| 0 <= i < |ds| && ds[i].nombreCompleto.None?;
        if i < |ds| - 1 {
          assert init[i] == ds[i];
        }
      }
      if exists i :: 0 <= i < |init| && init[i].nombreCompleto.None? {
        var i :| 0 <= i < |init| && init[i].nombreCompleto.None?;
        assert ds[i] == init[i];
      }
    }
  }

  /** Every row comes from a cached client that matches the key. */
  lemma {:induction false} RowsFromMatches(ds: seq<ClienteData>, q: string, k: int)
    requires 0 <= k < |Filter(ds, q).rows|
    ensures exists j :: 0 <= j < |ds| && RowMatches(q, ds[j]) == Some(true) && Filter(ds, q).rows[k] == RowOf(ds[j])
  {
    var init := ds[..|ds| - 1];
    var f := Filter(init, q);
    if k < |f.rows| {
      RowsFromMatches(init, q, k);
      var j :| 0 <= j < |init| && RowMatches(q, init[j]) == Some(true) && f.rows[k] == RowOf(init[j]);
      assert ds[j] == init[j];
    } else {
      assert RowMatches(q, ds[|ds| - 1]) == Some(true);
    }
  }

  /** Without an exception, every matching client has its row. */
  lemma {:induction false} MatchesHaveRows(ds: seq<ClienteData>, q: string, j: int)
    requires !Filter(ds, q).npe
    requires 0 <= j < |ds| && RowMatches(q, ds[j]) == Some(true)
    ensures RowOf(ds[j]) in Filter(ds, q).rows
  {
    var init := ds[..|ds| - 1];
    if j < |ds| - 1 {
      assert init[j] == ds[j];
      MatchesHaveRows(init, q, j);
    }
  }

  /** One more client of a run that has not thrown. */
  lemma FilterPrefixStep(ds: seq<ClienteData>, i: int, q: string)
    requires 0 <= i < |ds| && !Filter(ds[..i], q).npe
    ensures Filter(ds[..i + 1], q) ==
              match RowMatches(q, ds[i])
              case None => Filtered(Filter(ds[..i], q).rows, true)
              case Some(true) => Filtered(Filter(ds[..i], q).rows + [RowOf(ds[i])], false)
              case Some(false) => Filter(ds[..i], q)
  {
    assert ds[..i + 1][..i] == ds[..i];
  }

  /** Once a run has thrown, the clients after it change nothing. */
  lemma FilterStopsAt(ds: seq<ClienteData>, k: int, q: string)
    requires 0 <= k <= |ds| && Filter(ds[..k], q).npe
    ensures Filter(ds, q) == Filter(ds[..k], q)
  {
    FilterAppend(ds[..k], ds[k..], q);
    assert ds[..k] + ds[k..] == ds;
  }

  /** Every row of every cached client, in cache order. */
  function AllRows(ds: seq<ClienteData>): (rs: seq<Row>)
    ensures |rs| == |ds| && forall i :: 0 <= i < |ds| ==> rs[i] == RowOf(ds[i])
  {
    if ds == [] then [] else AllRows(ds[..|ds| - 1]) + [RowOf(ds[|ds| - 1])]
  }

  /** An empty key shows every cached client, in order, and never throws. */
  lemma {:induction false} EmptyKeyShowsAll(ds: seq<ClienteData>)
    ensures Filter(ds, []) == Filtered(AllRows(ds), false)
  {
    if ds != [] {
      EmptyKeyShowsAll(ds[..|ds| - 1]);
    }
  }

  /** A blank query shows every cached client, whatever the names. */
  lemma BlankQueryShowsAll(ds: seq<ClienteData>, query: string)
    requires IsBlank(query)
    ensures Filter(ds, SearchKey(query)) == Filtered(AllRows(ds), false)
  {
    SearchKeyEmptyIffBlank(query);
    EmptyKeyShowsAll(ds);
  }

  /** When the run throws, the table keeps the rows of the clients before the first nameless one. */
  lemma NpeKeepsEarlierRows(ds: seq<ClienteData>, q: string, k: int)
    requires q != [] && 0 <= k < |ds| && ds[k].nombreCompleto.None?
    requires forall i :: 0 <= i < k ==> ds[i].nombreCompleto.Some?
    ensures Filter(ds, q) == Filtered(Filter(ds[..k], q).rows, true)
  {
    var before := ds[..k];
    FilterNpeIff(before, q);
    assert forall i :: 0 <= i < |before| ==> before[i] == ds[i];
    assert RowMatches(q, ds[k]) == None;
    FilterPrefixStep(ds, k, q);
    FilterStopsAt(ds, k + 1, q);
  }

  /** The index of the first client with the given id, if any. */
  function FirstWithId(ds: seq<ClienteData>, id: int): (k: Option<nat>)
    ensures k.Some? ==> k.value < |ds| && ds[k.value].id == id && forall j :: 0 <= j < k.value ==> ds[j].id != id
    ensures k.None? <==> forall j :: 0 <= j < |ds| ==> ds[j].id != id
  {
    if ds == [] then None
    else if ds[0].id == id then Some(0)
    else match FirstWithId(ds[1..], id)
      case None => None
      case Some(k) => Some(k + 1)
  }

  /** The id of every row shown is found in the cache it was filtered from. */
  lemma RowIdsFound(ds: seq<ClienteData>, q: string, k: int)
    requires 0 <= k < |Filter(ds, q).rows|
    ensures FirstWithId(ds, Filter(ds, q).rows[k].id).Some?
  {
    RowsFromMatches(ds, q, k);
  }

  /** The data of a list of clients, in order. */
  function DataOf(cs: seq<Cliente>): (ds: seq<ClienteData>)
    reads cs
    ensures |ds| == |cs| && forall i :: 0 <= i < |cs| ==> ds[i] == cs[i].Data()
  {
    if cs == [] then [] else DataOf(cs[..|cs| - 1]) + [cs[|cs| - 1].Data()]
  }

  /** What the repository's findAll gave: the clients, or a DatabaseException's message. */
  type FindAll = Result<seq<Cliente>, string>

  class ClientesView {
    var cache: seq<Cliente>
    var rows: seq<Row>
    var toasts: seq<ToastRequest>

    /** The state loadData leaves: a read list in the cache and all of it in the table; on failure an error toast and an empty cache, the table untouched. */
    ghost predicate LoadedFrom(found: FindAll, rows0: seq<Row>, toasts0: seq<ToastRequest>)
      reads this, cache
    {
      match found
      case Success(list) => cache == list && rows == AllRows(DataOf(list)) && toasts == toasts0
      case Failure(msg) => cache == [] && rows == rows0 && toasts == toasts0 + [ToastRequest(ErrorType, LoadErrorPrefix + msg)]
    }

    /** The constructor loads the list at once. */
    constructor (found: FindAll)
      ensures LoadedFrom(found, [], [])
    {
      cache, rows, toasts := [], [], [];
      new;
      LoadData(found);
    }

    /**
     * filterData(query): empty the table, then add the rows of the
     * matching cached clients; `npe` when the run threw. The rows are
     * gathered in a local list and written to the table when the run
     * ends, normally or by the exception.
     */
    method FilterData(query: string) returns (npe: bool)
      modifies this`rows
      ensures Filtered(rows, npe) == Filter(old(DataOf(cache)), SearchKey(query))
    {
      var cs := cache;
      ghost var ds := DataOf(cs);
      rows := [];
      if |cs| == 0 {
        assert ds == [];
        return false;
      }
      var q := Trim(ToLower(query));
      var table: seq<Row> := [];
      var i := 0;
      while i < |cs|
        invariant 0 <= i <= |cs|
        invariant Filter(ds[..i], q) == Filtered(table, false)
      {
        var c := cs[i];
        assert c.Data() == ds[i];
        FilterPrefixStep(ds, i, q);
        if q != [] && c.nombreCompleto.None? {
          FilterStopsAt(ds, i + 1, q);
          rows := table;
          return true;
        }
        var keep := Matches(q, c);
        if keep {
          table := table + [RowOf(c.Data())];
        }
        i := i + 1;
      }
      assert ds[..i] == ds;
      rows := table;
      npe := false;
    }

    /** The condition filterData tests on a client whose name it can lower-case. */
    static method Matches(q: string, c: Cliente) returns (keep: bool)
      requires q == [] || c.nombreCompleto.Some?
      ensures RowMatches(q, c.Data()) == Some(keep)
    {
      keep := q == [] || Contains(ToLower(c.nombreCompleto.value), q) ||
              (c.cedula.Some? && Contains(ToLower(c.cedula.value), q));
    }

    /** loadData with what findAll gave. */
    method LoadData(found: FindAll)
      modifies this
      ensures LoadedFrom(found, old(rows), old(toasts))
    {
      if found.Failure? {
        toasts := toasts + [ToastRequest(ErrorType, LoadErrorPrefix + found.error)];
        cache := [];
        return;
      }
      ShowAll(found.value);
    }

    /** The successful half of loadData: the list is cached and the empty filter shows all of it. */
    method ShowAll(list: seq<Cliente>)
      modifies this`cache, this`rows
      ensures cache == list && rows == AllRows(DataOf(list))
    {
      cache := list;
      ghost var ds := DataOf(list);
      var npe := FilterData("");
      assert SearchKey("") == [];
      EmptyKeyShowsAll(ds);
    }

    /** The stream lookup in editSelected: the first cached client with the id. */
    method FindById(id: int) returns (found: Option<Cliente>)
      ensures FirstWithId(DataOf(cache), id).None? ==> found.None?
      ensures FirstWithId(DataOf(cache), id).Some? ==> found == Some(cache[FirstWithId(DataOf(cache), id).value])
    {
      ghost var ds := DataOf(cache);
      var i := 0;
      while i < |cache|
        invariant 0 <= i <= |cache|
        invariant forall j :: 0 <= j < i ==> ds[j].id != id
      {
        if cache[i].id == id {
          return Some(cache[i]);
        }
        i := i + 1;
      }
      return None;
    }

    /**
     * editSelected with the table's selection (-1 for none): the client
     * to open the edit modal on, if any. Without a selection it asks for
     * one; when the id is no longer cached it reports that and reloads
     * with `reload`.
     */
    method EditSelected(selectedRow: int, reload: FindAll) returns (edit: Option<Cliente>)
      requires selectedRow == -1 || 0 <= selectedRow < |rows|
      modifies this
      ensures selectedRow == -1 ==>
                edit.None? && cache == old(cache) && rows == old(rows) &&
                toasts == old(toasts) + [ToastRequest(InfoType, SelectFirstMessage)]
      ensures selectedRow != -1 && FirstWithId(old(DataOf(cache)), old(rows[selectedRow].id)).Some? ==>
                edit == Some(old(cache)[FirstWithId(old(DataOf(cache)), old(rows[selectedRow].id)).value]) &&
                cache == old(cache) && rows == old(rows) && toasts == old(toasts)
      ensures selectedRow != -1 && FirstWithId(old(DataOf(cache)), old(rows[selectedRow].id)).None? ==>
                edit.None? && LoadedFrom(reload, old(rows), old(toasts) + [ToastRequest(ErrorType, NotFoundMessage)])
    {
      if selectedRow == -1 {
        toasts := toasts + [ToastRequest(InfoType, SelectFirstMessage)];
        return None;
      }
      var id := rows[selectedRow].id;
      edit := FindById(id);
      if edit.None? {
        toasts := toasts + [ToastRequest(ErrorType, NotFoundMessage)];
        LoadData(reload);
      }
    }
  }
}
