/** The clients page: the holding-ordered table, the holding count, the new
    client template, and the page state behind the client card (which client
    is selected, whether the card is open and whether it is in edit mode). */
module Clients {
  import T = Types
  import Sequences
  import Collation
  import Codes

  /** The sort key that stands in for an empty holding. */
  const EmptyHoldingKey := "zzz"

  function HoldingKey(c: T.Client): (key: string)
    ensures key != ""
    ensures c.holding != "" ==> key == c.holding
    ensures c.holding == "" ==> key == EmptyHoldingKey
  {
    if c.holding == "" then EmptyHoldingKey else c.holding
  }

  /** The comparator of `tableData`: `a` may precede `b` when its key does not
      compare after `b`'s. */
  predicate ByHolding(a: T.Client, b: T.Client)
  {
    Collation.AtMost(HoldingKey(a), HoldingKey(b))
  }

  lemma ByHoldingTotalPreorder()
    ensures Sequences.TotalPreorder(ByHolding)
  {
    Collation.AtMostTotalPreorder();
    forall a, b ensures ByHolding(a, b) || ByHolding(b, a) {
      assert Collation.AtMost(HoldingKey(a), HoldingKey(b)) || Collation.AtMost(HoldingKey(b), HoldingKey(a));
    }
    forall a, b, c | ByHolding(a, b) && ByHolding(b, c) ensures ByHolding(a, c) {
      assert Collation.AtMost(HoldingKey(a), HoldingKey(c));
    }
  }

  /** `tableData`: a sorted copy of the clients, ordered by holding with an
      empty holding keyed as "zzz". */
  function TableData(clients: seq<T.Client>): (rows: seq<T.Client>)
    ensures multiset(rows) == multiset(clients)
    ensures Sequences.SortedBy(rows, ByHolding)
  {
    ByHoldingTotalPreorder();
    Sequences.SortBySorted(clients, ByHolding);
    Sequences.SortBy(clients, ByHolding)
  }

  /** Clients without a holding come after every client whose holding sorts
      before "zzz", and before every client whose holding sorts after it. */
  lemma EmptyHoldingsPlacement(clients: seq<T.Client>, i: int, j: int)
    requires 0 <= i < |TableData(clients)| && 0 <= j < |TableData(clients)|
    requires TableData(clients)[i].holding == ""
    ensures HasHolding(TableData(clients)[j]) && Collation.Less(TableData(clients)[j].holding, EmptyHoldingKey) ==> j < i
    ensures Collation.Less(EmptyHoldingKey, TableData(clients)[j].holding) ==> i < j
  {
    var rows := TableData(clients);
    var h := rows[j].holding;
    Collation.LessIrreflexive(EmptyHoldingKey);
    if h != "" && Collation.Less(h, EmptyHoldingKey) {
      if i < j {
        assert ByHolding(rows[i], rows[j]);
        Collation.LessAsymmetric(h, EmptyHoldingKey);
      }
    }
    if Collation.Less(EmptyHoldingKey, h) {
      assert h != "";
      if j < i {
        assert ByHolding(rows[j], rows[i]);
        Collation.LessAsymmetric(EmptyHoldingKey, h);
      }
    }
  }

  predicate HasHolding(c: T.Client)
  {
    c.holding != ""
  }

  function Holding(c: T.Client): string
  {
    c.holding
  }

  predicate NonEmpty(s: string)
  {
    s != ""
  }

  /** The distinct non-empty holding names. */
  function HoldingNames(clients: seq<T.Client>): (names: set<string>)
    ensures "" !in names
    ensures forall c :: c in clients && HasHolding(c) ==> c.holding in names
    ensures forall name :: name in names ==> exists c :: c in clients && c.holding == name
  {
    set i | 0 <= i < |clients| && HasHolding(clients[i]) :: clients[i].holding
  }

  /** `holdingsCount`: the size of the set of non-empty holdings. */
  function HoldingsCount(clients: seq<T.Client>): (n: nat)
    ensures n == |HoldingNames(clients)|
    ensures n <= |clients|
  {
    var names := Sequences.Filter(Sequences.Map(clients, Holding), NonEmpty);
    Sequences.DistinctCard(names);
    assert (set x | x in names) == HoldingNames(clients) by {
      var hs := Sequences.Map(clients, Holding);
      forall x | x in names ensures x in HoldingNames(clients) {
        var k :| 0 <= k < |hs| && hs[k] == x;
      }
      forall x | x in HoldingNames(clients) ensures x in names {
        var k :| 0 <= k < |clients| && HasHolding(clients[k]) && clients[k].holding == x;
        assert hs[k] == x;
      }
    }
    Sequences.SetOfSeqBound(names);
    |Sequences.Distinct(names)|
  }

  /** The client that "Add Client" opens: code "SM" and the next number padded
      to six digits, status New, city Kyiv, type Trader, every text field
      empty except the last-contact date, which is `today`. */
  function NewClient(count: nat, freshId: string, today: string): (c: T.Client)
    ensures c.id == freshId && c.code == Codes.RecordCode("SM", count + 1)
    ensures c.status == T.New && c.city == T.Kyiv && c.companyType == T.Trader
    ensures c.directions == [] && c.services == [] && c.contacts == []
    ensures c.lastContact == today && c.holding == "" && c.name == ""
    ensures c.edrpou == "" && c.vat == "" && c.sales == "" && c.website == "" && c.address == ""
    ensures c.source == "" && c.cargo == "" && c.whatShips == "" && c.workingSince == "" && c.notes == ""
  {
    T.Client(freshId, Codes.RecordCode("SM", count + 1), "", "", "", T.Kyiv, T.New, "", "",
             today, "", "", "", T.Trader, [], [], "", "", "", "", [])
  }

  /** The code of a new client reads back as the client count plus one. */
  lemma NewClientCode(count: nat, freshId: string, today: string)
    requires count + 1 < 1000000
    ensures var code := NewClient(count, freshId, today).code;
            && |code| == 8
            && code[..2] == "SM"
            && Codes.AllDigits(code[2..])
            && Codes.ValueOf(code[2..]) == count + 1
  {
    Codes.RecordCodeRoundTrip("SM", count + 1);
    Codes.RecordCodeLength("SM", count + 1);
  }

  class ClientsPage {
    var clients: seq<T.Client>
    var selected: T.Option<T.Client>
    var isCardOpen: bool
    var isEditing: bool

    /** An open card always has a client to show. */
    ghost predicate Valid()
      reads this
    {
      isCardOpen ==> selected.Some?
    }

    constructor (initial: seq<T.Client>)
      ensures Valid()
      ensures clients == initial && selected == T.None && !isCardOpen && !isEditing
    {
      clients := initial;
      selected := T.None;
      isCardOpen := false;
      isEditing := false;
    }

    /** `handleRowClick`: show the client in view mode. */
    method RowClick(c: T.Client)
      modifies this
      ensures Valid()
      ensures selected == T.Some(c) && isCardOpen && !isEditing
      ensures clients == old(clients)
    {
      selected := T.Some(c);
      isEditing := false;
      isCardOpen := true;
    }

    /** `handleAddClient`: open a blank client in edit mode; the list itself
        is only extended when the card is saved. */
    method AddClient(freshId: string, today: string)
      modifies this
      ensures Valid()
      ensures selected == T.Some(NewClient(|old(clients)|, freshId, today))
      ensures isCardOpen && isEditing
      ensures clients == old(clients)
    {
      selected := T.Some(NewClient(|clients|, freshId, today));
      isEditing := true;
      isCardOpen := true;
    }

    /** `handleSaveClient`: replace the first client with the same id in a
        copy of the list, or append when there is none; then close the card
        and clear the selection. */
    method SaveClient(updated: T.Client)
      modifies this
      ensures Valid()
      ensures clients == Sequences.Upsert(old(clients), T.ClientId, updated)
      ensures Sequences.UniqueIds(old(clients), T.ClientId) ==> Sequences.UniqueIds(clients, T.ClientId)
      ensures !isCardOpen && selected == T.None && isEditing == old(isEditing)
    {
      var current := clients;
      var existing := Sequences.IndexOfId(current, T.ClientId, updated.id);
      if existing >= 0 {
        var copy := new T.Client[|current|](j requires 0 <= j < |current| => current[j]);
        copy[existing] := updated;
        assert copy[..] == current[existing := updated];
        clients := copy[..];
      } else {
        clients := current + [updated];
      }
      if Sequences.UniqueIds(current, T.ClientId) {
        Sequences.UpsertKeepsIdsUnique(current, T.ClientId, updated);
      }
      isCardOpen := false;
      selected := T.None;
    }

    /** The card's close callback. */
    method CloseCard()
      modifies this
      ensures Valid()
      ensures !isCardOpen && selected == T.None
      ensures clients == old(clients) && isEditing == old(isEditing)
    {
      isCardOpen := false;
      selected := T.None;
    }

    /** The card's edit toggle. */
    method ToggleEdit()
      modifies this
      requires Valid()
      ensures Valid()
      ensures isEditing == !old(isEditing)
      ensures clients == old(clients) && selected == old(selected) && isCardOpen == old(isCardOpen)
    {
      isEditing := !isEditing;
    }
  }
}
