/** The link table of routes/linkfy-link/postgres.go, held in memory as a
    sequence of rows in insertion order. `CreateLinks` replaces all links
    of one profile inside a transaction: it works on a copy of the table
    and publishes the copy only at commit, so every failure leaves the
    table as it was. The failures the database may report are an input
    (`TxFault`, `ReadFault`). */
module LinkStore {
  import opened Http

  datatype LinkfyLinkCreated = LinkfyLinkCreated(name: string, nameUrl: string, iconsUrl: string)

  /** A link as read back; the generated row id and `created_at` are not modelled. */
  datatype LinkfyLink = LinkfyLink(name: string, nameUrl: string, iconsUrl: string)

  datatype LinkRow = LinkRow(linkfyId: string, name: string, nameUrl: string, iconsUrl: string, displayOrder: int)

  /** Where a `CreateLinks` transaction fails, if anywhere. `InsertFails(i)`
      fails the insert of the link at position `i`. */
  datatype TxFault = NoTxFault | BeginFails | DeleteFails | PrepareFails | InsertFails(at: nat) | CommitFails

  /** Where a read fails, if anywhere. `ScanFails(i)` fails the scan of the
      `i`-th returned row. */
  datatype ReadFault = NoReadFault | QueryFails | ScanFails(at: nat) | IterationFails

  const BeginFailed := CustomError(StatusInternalServerError, "Failed to begin transaction")
  const DeleteFailed := CustomError(StatusInternalServerError, "Failed to delete existing links")
  const PrepareFailed := CustomError(StatusInternalServerError, "Failed to prepare statement")
  const InsertFailed := CustomError(StatusInternalServerError, "Failed to insert link")
  const CommitFailed := CustomError(StatusInternalServerError, "Failed to commit transaction")
  const QueryFailed := CustomError(StatusInternalServerError, "Failed to query links")
  const ScanFailed := CustomError(StatusInternalServerError, "Failed to scan link row")
  const IterationFailed := CustomError(StatusInternalServerError, "Error iterating over rows")

  /** The error a replace of `n` links meets under `fault`. */
  function TxError(fault: TxFault, n: nat): Option<CustomError> {
    match fault
    case NoTxFault => None
    case BeginFails => Some(BeginFailed)
    case DeleteFails => Some(DeleteFailed)
    case PrepareFails => Some(PrepareFailed)
    case InsertFails(at) => if at < n then Some(InsertFailed) else None
    case CommitFails => Some(CommitFailed)
  }

  /** `WHERE linkfy_id = id`, in table order. */
  function RowsOf(rows: seq<LinkRow>, id: string): seq<LinkRow> {
    if |rows| == 0 then []
    else RowsOf(rows[..|rows| - 1], id) + (if rows[|rows| - 1].linkfyId == id then [rows[|rows| - 1]] else [])
  }

  /** The table after `DELETE ... WHERE linkfy_id = id`. */
  function Without(rows: seq<LinkRow>, id: string): seq<LinkRow> {
    if |rows| == 0 then []
    else Without(rows[..|rows| - 1], id) + (if rows[|rows| - 1].linkfyId != id then [rows[|rows| - 1]] else [])
  }

  /** The rows inserted for `links`: position i gets `display_order = i`. */
  function NewRows(id: string, links: seq<LinkfyLinkCreated>): seq<LinkRow> {
    seq(|links|, i requires 0 <= i < |links| => LinkRow(id, links[i].name, links[i].nameUrl, links[i].iconsUrl, i))
  }

  /** The table after a committed `CreateLinks(id, links)`. */
  function ReplaceLinks(rows: seq<LinkRow>, id: string, links: seq<LinkfyLinkCreated>): seq<LinkRow> {
    Without(rows, id) + NewRows(id, links)
  }

  /** The k-th row has `display_order = k`: the rows are in ascending
      display order and the orders are 0, 1, 2, ... */
  ghost predicate Indexed(s: seq<LinkRow>) {
    forall k :: 0 <= k < |s| ==> s[k].displayOrder == k
  }

  function View(row: LinkRow): LinkfyLink {
    LinkfyLink(row.name, row.nameUrl, row.iconsUrl)
  }

  function Views(s: seq<LinkRow>): seq<LinkfyLink> {
    seq(|s|, k requires 0 <= k < |s| => View(s[k]))
  }

  lemma {:induction false} RowsOfConcat(a: seq<LinkRow>, b: seq<LinkRow>, id: string)
    ensures RowsOf(a + b, id) == RowsOf(a, id) + RowsOf(b, id)
    decreases |b|
  {
    if |b| > 0 {
      var init := b[..|b| - 1];
      assert (a + b)[..|a + b| - 1] == a + init;
      RowsOfConcat(a, init, id);
    } else {
      assert a + b == a;
    }
  }

  /** After the delete, the profile has no rows and every other profile
      keeps its own. */
  lemma {:induction false} RowsOfWithout(rows: seq<LinkRow>, id: string, x: string)
    ensures RowsOf(Without(rows, id), x) == if x == id then [] else RowsOf(rows, x)
  {
    if |rows| > 0 {
      var init := rows[..|rows| - 1];
      var last := rows[|rows| - 1];
      RowsOfWithout(init, id, x);
      RowsOfConcat(Without(init, id), if last.linkfyId != id then [last] else [], x);
      assert RowsOf([last], x) == if last.linkfyId == x then [last] else [] by {
        assert [last][..0] == [];
      }
    }
  }

  lemma {:induction false} RowsOfNewRows(id: string, links: seq<LinkfyLinkCreated>, x: string)
    ensures RowsOf(NewRows(id, links), x) == if x == id then NewRows(id, links) else []
  {
    if |links| > 0 {
      var init := links[..|links| - 1];
      RowsOfNewRows(id, init, x);
      assert NewRows(id, links)[..|links| - 1] == NewRows(id, init);
    }
  }

  /** What a committed replace does to every profile's links: the replaced
      profile has exactly the new rows, each other profile keeps its own. */
  lemma ReplaceLinksRows(rows: seq<LinkRow>, id: string, links: seq<LinkfyLinkCreated>, x: string)
    ensures RowsOf(ReplaceLinks(rows, id, links), x) == if x == id then NewRows(id, links) else RowsOf(rows, x)
  {
    RowsOfConcat(Without(rows, id), NewRows(id, links), x);
    RowsOfWithout(rows, id, x);
    RowsOfNewRows(id, links, x);
  }

  /** The round trip: reading a profile's links after replacing them with
      `links` gives back `links`, in order and field by field. */
  lemma ReadAfterReplace(rows: seq<LinkRow>, id: string, links: seq<LinkfyLinkCreated>)
    ensures |Views(RowsOf(ReplaceLinks(rows, id, links), id))| == |links|
    ensures forall k :: 0 <= k < |links| ==>
      Views(RowsOf(ReplaceLinks(rows, id, links), id))[k] == LinkfyLink(links[k].name, links[k].nameUrl, links[k].iconsUrl)
  {
    ReplaceLinksRows(rows, id, links, id);
  }

  /** Replacing with no links clears the profile. */
  lemma ReplaceWithNothing(rows: seq<LinkRow>, id: string)
    ensures RowsOf(ReplaceLinks(rows, id, []), id) == []
  {
    ReplaceLinksRows(rows, id, [], id);
  }

  class LinkfyLinkPostgres {
    var rows: seq<LinkRow>

    /** Every profile's rows, in table order, carry display orders 0, 1, 2, ... */
    ghost predicate Valid()
      reads this
    {
      forall id :: Indexed(RowsOf(rows, id))
    }

    constructor ()
      ensures Valid() && rows == []
    {
      rows := [];
    }

    method CreateLinks(linkfyId: string, links: seq<LinkfyLinkCreated>, fault: TxFault) returns (err: Option<CustomError>)
      requires Valid()
      modifies this
      ensures Valid()
      ensures err == TxError(fault, |links|)
      ensures err.None? ==> rows == ReplaceLinks(old(rows), linkfyId, links)
      ensures err.Some? ==> rows == old(rows)
    {
      if fault == BeginFails {
        return Some(BeginFailed);
      }
      if fault == DeleteFails {
        return Some(DeleteFailed);
      }
      var work := Without(rows, linkfyId);
      if fault == PrepareFails {
        return Some(PrepareFailed);
      }
      var i := 0;
      while i < |links|
        invariant 0 <= i <= |links|
        invariant work == Without(rows, linkfyId) + NewRows(linkfyId, links[..i])
        invariant fault.InsertFails? ==> fault.at >= i
      {
        if fault == InsertFails(i) {
          return Some(InsertFailed);
        }
        assert NewRows(linkfyId, links[..i + 1]) == NewRows(linkfyId, links[..i]) + [LinkRow(linkfyId, links[i].name, links[i].nameUrl, links[i].iconsUrl, i)];
        work := work + [LinkRow(linkfyId, links[i].name, links[i].nameUrl, links[i].iconsUrl, i)];
        i := i + 1;
      }
      if fault == CommitFails {
        return Some(CommitFailed);
      }
      assert links[..i] == links;
      forall x ensures Indexed(RowsOf(ReplaceLinks(rows, linkfyId, links), x)) {
        ReplaceLinksRows(rows, linkfyId, links, x);
        if x == linkfyId {
          assert Indexed(NewRows(linkfyId, links));
        } else {
          assert Indexed(RowsOf(rows, x));
        }
      }
      assert work == ReplaceLinks(rows, linkfyId, links);
      rows := work;
      err := None;
    }

    /** `ORDER BY display_order ASC`: the k-th link returned is the
        profile's row with display order k. No rows is an empty list. */
    method GetLinkByLinkfyID(linkfyId: string, fault: ReadFault) returns (r: Result<seq<LinkfyLink>>)
      requires Valid()
      ensures fault == QueryFails ==> r == Err(QueryFailed)
      ensures fault.ScanFails? && fault.at < |RowsOf(rows, linkfyId)| ==> r == Err(ScanFailed)
      ensures fault == IterationFails ==> r == Err(IterationFailed)
      ensures fault == NoReadFault || (fault.ScanFails? && fault.at >= |RowsOf(rows, linkfyId)|) ==>
        && r.Ok?
        && |r.value| == |RowsOf(rows, linkfyId)|
        && forall k :: 0 <= k < |r.value| ==>
             r.value[k] == View(RowsOf(rows, linkfyId)[k]) && RowsOf(rows, linkfyId)[k].displayOrder == k
    {
      if fault == QueryFails {
        return Err(QueryFailed);
      }
      var links: seq<LinkfyLink> := [];
      var i := 0;
      while i < |rows|
        invariant 0 <= i <= |rows|
        invariant links == Views(RowsOf(rows[..i], linkfyId))
        invariant fault.ScanFails? ==> fault.at >= |links|
      {
        assert rows[..i + 1][..i] == rows[..i];
        if rows[i].linkfyId == linkfyId {
          if fault == ScanFails(|links|) {
            RowsOfConcat(rows[..i + 1], rows[i + 1..], linkfyId);
            assert rows[..i + 1] + rows[i + 1..] == rows;
            return Err(ScanFailed);
          }
          links := links + [View(rows[i])];
        }
        i := i + 1;
      }
      if fault == IterationFails {
        return Err(IterationFailed);
      }
      assert rows[..i] == rows;
      r := Ok(links);
    }
  }
}
