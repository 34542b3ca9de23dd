/** The quotation card: the derived total, the effect that keeps the stored
    total in step with it, saving, field edits and the client lookup. Every
    step maps the quotation being edited to a new quotation value. */
module QuotationCard {
  import T = Types
  import Sequences
  import Selects

  /** `keyof Quotation`. */
  datatype QuotationField =
    | Id | Code | Date | From | To | ContainerType
    | Freight | Dpp | Forwarding | T1 | Auto | Rail | Total
    | ShippingLine | Agent | Sales | Transit | ClientId | ClientName

  /** A value that can be stored in a quotation field; `Absent` is the
      missing value of the two optional fields. */
  datatype FieldValue =
    | Text(text: string)
    | Number(number: int)
    | Container(containerType: T.ContainerType)
    | Absent

  function Get(q: T.Quotation, f: QuotationField): FieldValue
  {
    match f
    case Id => Text(q.id)
    case Code => Text(q.code)
    case Date => Text(q.date)
    case From => Text(q.from)
    case To => Text(q.to)
    case ContainerType => Container(q.containerType)
    case Freight => Number(q.freight)
    case Dpp => Number(q.dpp)
    case Forwarding => Number(q.forwarding)
    case T1 => Number(q.t1)
    case Auto => Number(q.auto)
    case Rail => Number(q.rail)
    case Total => Number(q.total)
    case ShippingLine => Text(q.shippingLine)
    case Agent => Text(q.agent)
    case Sales => Text(q.sales)
    case Transit => Number(q.transit)
    case ClientId => if q.clientId.Some? then Text(q.clientId.value) else Absent
    case ClientName => if q.clientName.Some? then Text(q.clientName.value) else Absent
  }

  /** The field keys cover the whole record: two quotations that agree on
      every field are the same quotation. */
  lemma FieldsDetermineQuotation(a: T.Quotation, b: T.Quotation)
    requires forall f :: Get(a, f) == Get(b, f)
    ensures a == b
  {
    assert a.id == b.id by { assert Get(a, Id) == Get(b, Id); }
    assert a.code == b.code by { assert Get(a, Code) == Get(b, Code); }
    assert a.date == b.date by { assert Get(a, Date) == Get(b, Date); }
    assert a.from == b.from by { assert Get(a, From) == Get(b, From); }
    assert a.to == b.to by { assert Get(a, To) == Get(b, To); }
    assert a.containerType == b.containerType by { assert Get(a, ContainerType) == Get(b, ContainerType); }
    assert a.freight == b.freight by { assert Get(a, Freight) == Get(b, Freight); }
    assert a.dpp == b.dpp by { assert Get(a, Dpp) == Get(b, Dpp); }
    assert a.forwarding == b.forwarding by { assert Get(a, Forwarding) == Get(b, Forwarding); }
    assert a.t1 == b.t1 by { assert Get(a, T1) == Get(b, T1); }
    assert a.auto == b.auto by { assert Get(a, Auto) == Get(b, Auto); }
    assert a.rail == b.rail by { assert Get(a, Rail) == Get(b, Rail); }
    assert a.total == b.total by { assert Get(a, Total) == Get(b, Total); }
    assert a.shippingLine == b.shippingLine by { assert Get(a, ShippingLine) == Get(b, ShippingLine); }
    assert a.agent == b.agent by { assert Get(a, Agent) == Get(b, Agent); }
    assert a.sales == b.sales by { assert Get(a, Sales) == Get(b, Sales); }
    assert a.transit == b.transit by { assert Get(a, Transit) == Get(b, Transit); }
    assert a.clientId == b.clientId by { assert Get(a, ClientId) == Get(b, ClientId); }
    assert a.clientName == b.clientName by { assert Get(a, ClientName) == Get(b, ClientName); }
  }

  predicate IsNumberField(f: QuotationField)
  {
    f in {Freight, Dpp, Forwarding, T1, Auto, Rail, Total, Transit}
  }

  /** The six charges that make up the total. */
  predicate IsCharge(f: QuotationField)
  {
    f in {Freight, Dpp, Forwarding, T1, Auto, Rail}
  }

  /** The value has the type the field is declared with. */
  predicate Fits(f: QuotationField, v: FieldValue)
  {
    if IsNumberField(f) then v.Number?
    else if f == ContainerType then v.Container?
    else if f == ClientId || f == ClientName then v.Text? || v.Absent?
    else v.Text?
  }

  /** `handleFieldChange(field, value)`: `{ ...prev, [field]: value }`. */
  function FieldChange(q: T.Quotation, f: QuotationField, v: FieldValue): (r: T.Quotation)
    requires Fits(f, v)
    ensures Get(r, f) == v
    ensures forall g :: g != f ==> Get(r, g) == Get(q, g)
  {
    match f
    case Id => q.(id := v.text)
    case Code => q.(code := v.text)
    case Date => q.(date := v.text)
    case From => q.(from := v.text)
    case To => q.(to := v.text)
    case ContainerType => q.(containerType := v.containerType)
    case Freight => q.(freight := v.number)
    case Dpp => q.(dpp := v.number)
    case Forwarding => q.(forwarding := v.number)
    case T1 => q.(t1 := v.number)
    case Auto => q.(auto := v.number)
    case Rail => q.(rail := v.number)
    case Total => q.(total := v.number)
    case ShippingLine => q.(shippingLine := v.text)
    case Agent => q.(agent := v.text)
    case Sales => q.(sales := v.text)
    case Transit => q.(transit := v.number)
    case ClientId => q.(clientId := if v.Text? then T.Some(v.text) else T.None)
    case ClientName => q.(clientName := if v.Text? then T.Some(v.text) else T.None)
  }

  /** The charges of a quotation, in the order they are added up. */
  function Charges(q: T.Quotation): seq<int>
  {
    [q.freight, q.dpp, q.forwarding, q.t1, q.auto, q.rail]
  }

  /** `calculatedTotal`: the sum of the six charges. */
  function CalculatedTotal(q: T.Quotation): (total: int)
    ensures total == Sequences.Sum(Charges(q))
  {
    assert Sequences.Sum([q.rail]) == q.rail;
    assert Sequences.Sum([q.auto, q.rail]) == q.auto + q.rail;
    assert Sequences.Sum([q.t1, q.auto, q.rail]) == q.t1 + q.auto + q.rail;
    assert Sequences.Sum([q.forwarding, q.t1, q.auto, q.rail]) == q.forwarding + q.t1 + q.auto + q.rail;
    assert Sequences.Sum([q.dpp, q.forwarding, q.t1, q.auto, q.rail]) == q.dpp + q.forwarding + q.t1 + q.auto + q.rail;
    q.freight + q.dpp + q.forwarding + q.t1 + q.auto + q.rail
  }

  /** Editing one charge moves the total by exactly the change in that charge;
      editing any other field leaves the total where it was. */
  lemma TotalFollowsCharges(q: T.Quotation, f: QuotationField, v: FieldValue)
    requires Fits(f, v)
    ensures IsCharge(f) ==> CalculatedTotal(FieldChange(q, f, v)) == CalculatedTotal(q) - Get(q, f).number + v.number
    ensures !IsCharge(f) ==> CalculatedTotal(FieldChange(q, f, v)) == CalculatedTotal(q)
  {
    var r := FieldChange(q, f, v);
    assert Get(r, Freight) == Get(q, Freight) || f == Freight;
    assert Get(r, Dpp) == Get(q, Dpp) || f == Dpp;
    assert Get(r, Forwarding) == Get(q, Forwarding) || f == Forwarding;
    assert Get(r, T1) == Get(q, T1) || f == T1;
    assert Get(r, Auto) == Get(q, Auto) || f == Auto;
    assert Get(r, Rail) == Get(q, Rail) || f == Rail;
  }

  /** The effect on `[calculatedTotal, editedQuotation.total]`: when the stored
      total differs from the derived one it is replaced, and nothing else is. */
  function SyncTotal(q: T.Quotation): (r: T.Quotation)
    ensures r.total == CalculatedTotal(r)
    ensures CalculatedTotal(r) == CalculatedTotal(q)
    ensures forall g :: g != Total ==> Get(r, g) == Get(q, g)
  {
    if q.total != CalculatedTotal(q) then FieldChange(q, Total, Number(CalculatedTotal(q))) else q
  }

  /** Once the total is in step the effect changes nothing more. */
  lemma SyncTotalIdempotent(q: T.Quotation)
    ensures SyncTotal(SyncTotal(q)) == SyncTotal(q)
  {
  }

  /** `handleSave`: `{ ...editedQuotation, total: calculatedTotal }`. */
  function SaveQuotation(q: T.Quotation): (r: T.Quotation)
    ensures r.total == CalculatedTotal(r)
    ensures forall g :: g != Total ==> Get(r, g) == Get(q, g)
  {
    FieldChange(q, Total, Number(CalculatedTotal(q)))
  }

  /** Saving gives the same record as letting the effect run, whatever total
      was stored before. */
  lemma SaveAgreesWithSync(q: T.Quotation)
    ensures SaveQuotation(q) == SyncTotal(q)
  {
  }

  /** `handleClientChange`: look the id up among `directory` (the client table
      the card offers) with `find`; when found, set both the client id and the
      client's name, otherwise leave the quotation as it is. */
  function ClientChange(q: T.Quotation, directory: seq<T.Client>, clientId: string): (r: T.Quotation)
    ensures !Sequences.HasId(directory, T.ClientId, clientId) ==> r == q
    ensures forall i :: Sequences.FirstWithId(directory, T.ClientId, clientId, i) ==>
              r.clientId == T.Some(clientId) && r.clientName == T.Some(directory[i].name)
    ensures forall g :: g != ClientId && g != ClientName ==> Get(r, g) == Get(q, g)
  {
    var i := Sequences.IndexOfId(directory, T.ClientId, clientId);
    if i >= 0 then
      FieldChange(FieldChange(q, ClientId, Text(clientId)), ClientName, Text(directory[i].name))
    else q
  }

  const NoneItem := "none"

  /** The client select: `value !== 'none' && handleClientChange(value)`. */
  function ChooseClient(q: T.Quotation, directory: seq<T.Client>, item: string): (r: T.Quotation)
    ensures item == NoneItem ==> r == q
    ensures item != NoneItem ==> r == ClientChange(q, directory, item)
  {
    if item == NoneItem then q else ClientChange(q, directory, item)
  }

  /** The item the client select shows: `clientId || 'none'`. */
  function ClientShown(q: T.Quotation): (item: string)
    ensures item != ""
    ensures q.clientId.None? ==> item == NoneItem
    ensures q.clientId.Some? && q.clientId.value != "" ==> item == q.clientId.value
  {
    Selects.Shown(if q.clientId.Some? then q.clientId.value else "", NoneItem)
  }

  /** Choosing the item the client select shows keeps the quotation: with no
      client the select shows 'none', and a client already picked from the
      table is picked again with the same name. */
  lemma ChooseShownClient(q: T.Quotation, directory: seq<T.Client>, i: int)
    ensures q.clientId == T.None ==> ChooseClient(q, directory, ClientShown(q)) == q
    ensures q.clientId.Some? && Sequences.FirstWithId(directory, T.ClientId, q.clientId.value, i)
            && q.clientName == T.Some(directory[i].name)
            ==> ChooseClient(q, directory, ClientShown(q)) == q
  {
    if q.clientId.Some? && Sequences.FirstWithId(directory, T.ClientId, q.clientId.value, i)
       && q.clientName == T.Some(directory[i].name) && ClientShown(q) != NoneItem {
      var r := ClientChange(q, directory, q.clientId.value);
      assert Get(r, ClientId) == Get(q, ClientId) && Get(r, ClientName) == Get(q, ClientName);
      FieldsDetermineQuotation(r, q);
    }
  }

  /** The shipping line, agent and sales selects, which store '' for 'none'. */
  predicate IsProviderField(f: QuotationField)
  {
    f in {ShippingLine, Agent, Sales}
  }

  function ProviderShown(q: T.Quotation, f: QuotationField): (item: string)
    requires IsProviderField(f)
    ensures item != ""
    ensures item == NoneItem <==> Get(q, f) == Text("") || Get(q, f) == Text(NoneItem)
    ensures Get(q, f) != Text("") ==> Get(q, f) == Text(item)
  {
    Selects.Shown(Get(q, f).text, NoneItem)
  }

  function ChooseProvider(q: T.Quotation, f: QuotationField, item: string): (r: T.Quotation)
    requires IsProviderField(f)
    ensures Get(r, f) == Text(if item == NoneItem then "" else item)
    ensures forall g :: g != f ==> Get(r, g) == Get(q, g)
  {
    FieldChange(q, f, Text(Selects.Stored(item, NoneItem)))
  }

  /** Choosing the item a provider select shows leaves the quotation as it
      was, unless the stored name is literally "none"; an empty field shows
      'none'. */
  lemma ChooseShownProvider(q: T.Quotation, f: QuotationField)
    requires IsProviderField(f)
    ensures Get(q, f).text == "" ==> ProviderShown(q, f) == NoneItem
    ensures Get(ChooseProvider(q, f, ProviderShown(q, f)), f) == Get(q, f) <==> Get(q, f).text != NoneItem
  {
    Selects.StoredAfterShown(Get(q, f).text, NoneItem);
  }
}
