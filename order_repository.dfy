/** The order table and the finders `OrderRepository` declares, read as
    filters over the table's rows in insertion order. */
module OrderRepository {
  import opened Common
  import opened OrderDomain

  /** Ids handed out by the IDENTITY column: row `i` carries id `i + 1`. */
  predicate IdsAreRowNumbers(rows: seq<Order>) {
    forall i :: 0 <= i < |rows| ==> rows[i].id == i + 1
  }

  /** `findByCustomerUsername`: the caller's orders and no others, in table
      order. */
  function FindByCustomerUsername(rows: seq<Order>, customerUsername: string): (r: seq<Order>)
    ensures |r| <= |rows|
    ensures forall o :: o in r <==> o in rows && o.customerUsername == customerUsername
    ensures (forall i, j :: 0 <= i < j < |rows| ==> rows[i].id < rows[j].id) ==>
              forall i, j :: 0 <= i < j < |r| ==> r[i].id < r[j].id
  {
    if rows == [] then []
    else
      var rest := FindByCustomerUsername(rows[1..], customerUsername);
      assert forall o :: o in rows[1..] ==> o in rows;
      if rows[0].customerUsername == customerUsername then [rows[0]] + rest else rest
  }

  /** `findByIdWithItems`: present exactly when a row has that id. */
  function FindByIdWithItems(rows: seq<Order>, id: int): (r: Option<Order>)
    ensures r.Some? <==> exists i :: 0 <= i < |rows| && rows[i].id == id
    ensures r.Some? ==> r.value in rows && r.value.id == id
  {
    if rows == [] then None
    else if rows[0].id == id then Some(rows[0])
    else
      var r := FindByIdWithItems(rows[1..], id);
      assert forall i :: 1 <= i < |rows| ==> rows[i] == rows[1..][i - 1];
      r
  }

  /** `findByIdAndCustomerUsernameWithItems`: present exactly when a row has
      that id and that owner. */
  function FindByIdAndCustomerUsernameWithItems(rows: seq<Order>, id: int, customerUsername: string): (r: Option<Order>)
    ensures r.Some? <==> exists i :: 0 <= i < |rows| && rows[i].id == id && rows[i].customerUsername == customerUsername
    ensures r.Some? ==> r.value in rows && r.value.id == id && r.value.customerUsername == customerUsername
  {
    if rows == [] then None
    else if rows[0].id == id && rows[0].customerUsername == customerUsername then Some(rows[0])
    else
      var r := FindByIdAndCustomerUsernameWithItems(rows[1..], id, customerUsername);
      assert forall i :: 1 <= i < |rows| ==> rows[i] == rows[1..][i - 1];
      r
  }

  /** On a table whose ids are row numbers, the by-id finder is an index. */
  lemma {:induction false} FindByIdIsIndex(rows: seq<Order>, id: int)
    requires IdsAreRowNumbers(rows)
    ensures FindByIdWithItems(rows, id) == if 1 <= id <= |rows| then Some(rows[id - 1]) else None
  {
    if 1 <= id <= |rows| {
      var r := FindByIdWithItems(rows, id);
      assert rows[id - 1].id == id;
      assert r.Some?;
      var k :| 0 <= k < |rows| && rows[k] == r.value;
      assert k == id - 1;
    }
  }

  /** With ids as row numbers, the owner-scoped finder is the by-id finder
      followed by an owner check: it returns a subset of what the by-id
      finder returns, and a mismatched owner looks exactly like a missing
      order. */
  lemma OwnerScopedIsByIdFiltered(rows: seq<Order>, id: int, customerUsername: string)
    requires IdsAreRowNumbers(rows)
    ensures var byId := FindByIdWithItems(rows, id);
            FindByIdAndCustomerUsernameWithItems(rows, id, customerUsername)
              == if byId.Some? && byId.value.customerUsername == customerUsername then byId else None
  {
    FindByIdIsIndex(rows, id);
    var r := FindByIdAndCustomerUsernameWithItems(rows, id, customerUsername);
    if r.Some? {
      var k :| 0 <= k < |rows| && rows[k] == r.value;
      assert k == id - 1;
    }
  }

  /** `save` of an existing order: the row with that id takes the new value. */
  function ReplaceById(rows: seq<Order>, o: Order): (r: seq<Order>)
    ensures |r| == |rows|
    ensures forall i :: 0 <= i < |rows| ==> r[i] == if rows[i].id == o.id then o else rows[i]
  {
    seq(|rows|, i requires 0 <= i < |rows| => if rows[i].id == o.id then o else rows[i])
  }

  /** The order table. */
  class OrderTable {
    var rows: seq<Order>

    ghost predicate Valid()
      reads this
    {
      IdsAreRowNumbers(rows)
    }

    constructor ()
      ensures Valid() && rows == []
    {
      rows := [];
    }

    /** `save` of a new order: it gets the next id and goes last. */
    method Insert(o: Order) returns (saved: Order)
      requires Valid()
      modifies this
      ensures Valid()
      ensures saved == o.(id := |old(rows)| + 1)
      ensures rows == old(rows) + [saved]
    {
      saved := o.(id := |rows| + 1);
      rows := rows + [saved];
    }

    /** `save` of an order already in the table. */
    method Update(o: Order)
      requires Valid()
      modifies this
      ensures Valid()
      ensures rows == ReplaceById(old(rows), o)
    {
      rows := ReplaceById(rows, o);
      assert forall i :: 0 <= i < |rows| ==> rows[i].id == old(rows)[i].id;
    }
  }
}
