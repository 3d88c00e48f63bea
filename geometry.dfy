/** Geometry negotiation: every attached terminal client reports its size, and the
    interface takes the smallest number of rows and of columns over all of them, so
    that every client can show the whole screen. */
module Geometry {
  import opened Results

  /** A client's metadata dictionary (`rows`, `cols` and whatever else it sends). */
  type Metadata = map<string, int>

  /** `term_clients.setdefault(id, {}).update(data)`: the client's entry with the
      keys of `data` added or replaced. */
  function Merge(clients: map<string, Metadata>, id: string, data: Metadata): map<string, Metadata>
  {
    clients[id := (if id in clients then clients[id] else map[]) + data]
  }

  /** The merged entry holds the keys of both dictionaries, the reported values
      winning, and nothing else changes. */
  lemma MergeFields(clients: map<string, Metadata>, id: string, data: Metadata)
    ensures Merge(clients, id, data).Keys == clients.Keys + {id}
    ensures Merge(clients, id, data)[id].Keys == data.Keys + (if id in clients then clients[id].Keys else {})
    ensures forall k | k in data :: Merge(clients, id, data)[id][k] == data[k]
    ensures id in clients ==> forall k | k in clients[id] && k !in data :: Merge(clients, id, data)[id][k] == clients[id][k]
    ensures forall c | c in clients && c != id :: Merge(clients, id, data)[c] == clients[c]
  {
  }

  /** Every client in `ids` reports `key`. */
  predicate AllReport(clients: map<string, Metadata>, ids: set<string>, key: string)
    requires ids <= clients.Keys
  {
    forall id | id in ids :: key in clients[id]
  }

  /** `v` is the smallest `key` reported by the clients in `ids`: some client reports
      it and none reports less. */
  predicate IsMinOver(clients: map<string, Metadata>, ids: set<string>, key: string, v: int)
    requires ids <= clients.Keys && AllReport(clients, ids, key)
  {
    (exists id | id in ids :: clients[id][key] == v) && forall id | id in ids :: v <= clients[id][key]
  }

  /** The loop of `update_terminal_metadata` (`term_client_metadata_update` in the older
      interface) over the tracked clients: the smallest `rows` and the smallest `cols`,
      or `KeyError` when a client lacks either. The dictionary is walked in some order;
      the answer does not depend on it. The interface always has at least the client
      that was just updated. */
  method MinimumGeometry(clients: map<string, Metadata>) returns (r: Result<(int, int)>)
    requires clients != map[]
    ensures r.Ok? <==> AllReport(clients, clients.Keys, "rows") && AllReport(clients, clients.Keys, "cols")
    ensures r.Err? ==> r.error == KeyError
    ensures r.Ok? ==> IsMinOver(clients, clients.Keys, "rows", r.value.0)
    ensures r.Ok? ==> IsMinOver(clients, clients.Keys, "cols", r.value.1)
  {
    var left := clients.Keys;
    ghost var seen: set<string> := {};
    var minRow: Option<int> := None;
    var minCol: Option<int> := None;
    while left != {}
      invariant left !! seen && left + seen == clients.Keys
      invariant AllReport(clients, seen, "rows") && AllReport(clients, seen, "cols")
      invariant minRow.None? <==> seen == {}
      invariant minCol.None? <==> seen == {}
      invariant minRow.Some? ==> IsMinOver(clients, seen, "rows", minRow.value)
      invariant minCol.Some? ==> IsMinOver(clients, seen, "cols", minCol.value)
      decreases left
    {
      var id :| id in left;
      var data := clients[id];
      if "rows" !in data {
        return Err(KeyError);
      }
      if minRow.None? || data["rows"] < minRow.value {
        minRow := Some(data["rows"]);
      }
      if "cols" !in data {
        return Err(KeyError);
      }
      if minCol.None? || data["cols"] < minCol.value {
        minCol := Some(data["cols"]);
      }
      left := left - {id};
      seen := seen + {id};
    }
    return Ok((minRow.value, minCol.value));
  }

  /** The client that just reported bounds the result: the negotiated size never
      exceeds its own, and a client reporting less than every other one sets it. */
  lemma ReporterBounds(clients: map<string, Metadata>, id: string, data: Metadata, rows: int)
    requires "rows" in data
    requires AllReport(Merge(clients, id, data), Merge(clients, id, data).Keys, "rows")
    requires IsMinOver(Merge(clients, id, data), Merge(clients, id, data).Keys, "rows", rows)
    ensures rows <= data["rows"]
    ensures (forall c | c in Merge(clients, id, data) && c != id :: data["rows"] <= Merge(clients, id, data)[c]["rows"])
            ==> rows == data["rows"]
  {
    var m := Merge(clients, id, data);
    MergeFields(clients, id, data);
    assert m[id]["rows"] == data["rows"];
    if forall c | c in m && c != id :: data["rows"] <= m[c]["rows"] {
      var w :| w in m.Keys && m[w]["rows"] == rows;
      if w != id {
        assert m[w] == clients[w];
      }
    }
  }

  /** The smallest value is unique: every order of visiting the clients gives the same size. */
  lemma MinIsUnique(clients: map<string, Metadata>, key: string, v: int, w: int)
    requires AllReport(clients, clients.Keys, key)
    requires IsMinOver(clients, clients.Keys, key, v) && IsMinOver(clients, clients.Keys, key, w)
    ensures v == w
  {
    var i :| i in clients.Keys && clients[i][key] == v;
    var j :| j in clients.Keys && clients[j][key] == w;
    assert w <= clients[i][key] && v <= clients[j][key];
  }
}
