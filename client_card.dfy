/** The editing handlers of the client card. Each one builds a new client
    value from the one being edited (object spread, `filter`, `map`,
    concatenation); none changes anything in place. */
module ClientCard {
  import T = Types
  import Sequences
  import Selects

  /** `keyof Client`. */
  datatype ClientField =
    | Id | Code | Name | Edrpou | Vat | City | Status | Sales | Holding | LastContact
    | Website | Address | Source | CompanyType | Directions | Services | Cargo
    | WhatShips | WorkingSince | Notes | Contacts

  /** A value that can be stored in a client field. */
  datatype FieldValue =
    | Text(text: string)
    | CityValue(city: T.City)
    | StatusValue(status: T.ClientStatus)
    | CompanyTypeValue(companyType: T.CompanyType)
    | DirectionsValue(directions: seq<T.Direction>)
    | ServicesValue(services: seq<T.Service>)
    | ContactsValue(contacts: seq<T.Contact>)

  function Get(c: T.Client, f: ClientField): FieldValue
  {
    match f
    case Id => Text(c.id)
    case Code => Text(c.code)
    case Name => Text(c.name)
    case Edrpou => Text(c.edrpou)
    case Vat => Text(c.vat)
    case City => CityValue(c.city)
    case Status => StatusValue(c.status)
    case Sales => Text(c.sales)
    case Holding => Text(c.holding)
    case LastContact => Text(c.lastContact)
    case Website => Text(c.website)
    case Address => Text(c.address)
    case Source => Text(c.source)
    case CompanyType => CompanyTypeValue(c.companyType)
    case Directions => DirectionsValue(c.directions)
    case Services => ServicesValue(c.services)
    case Cargo => Text(c.cargo)
    case WhatShips => Text(c.whatShips)
    case WorkingSince => Text(c.workingSince)
    case Notes => Text(c.notes)
    case Contacts => ContactsValue(c.contacts)
  }

  /** The value has the type the field is declared with. */
  predicate Fits(f: ClientField, v: FieldValue)
  {
    match f
    case City => v.CityValue?
    case Status => v.StatusValue?
    case CompanyType => v.CompanyTypeValue?
    case Directions => v.DirectionsValue?
    case Services => v.ServicesValue?
    case Contacts => v.ContactsValue?
    case _ => v.Text?
  }

  /** `handleFieldChange(field, value)`: `{ ...prev, [field]: value }`. */
  function FieldChange(c: T.Client, f: ClientField, v: FieldValue): (r: T.Client)
    requires Fits(f, v)
    ensures Get(r, f) == v
    ensures forall g :: g != f ==> Get(r, g) == Get(c, g)
  {
    match f
    case Id => c.(id := v.text)
    case Code => c.(code := v.text)
    case Name => c.(name := v.text)
    case Edrpou => c.(edrpou := v.text)
    case Vat => c.(vat := v.text)
    case City => c.(city := v.city)
    case Status => c.(status := v.status)
    case Sales => c.(sales := v.text)
    case Holding => c.(holding := v.text)
    case LastContact => c.(lastContact := v.text)
    case Website => c.(website := v.text)
    case Address => c.(address := v.text)
    case Source => c.(source := v.text)
    case CompanyType => c.(companyType := v.companyType)
    case Directions => c.(directions := v.directions)
    case Services => c.(services := v.services)
    case Cargo => c.(cargo := v.text)
    case WhatShips => c.(whatShips := v.text)
    case WorkingSince => c.(workingSince := v.text)
    case Notes => c.(notes := v.text)
    case Contacts => c.(contacts := v.contacts)
  }

  /** The field keys cover the whole record: two clients that agree on every
      field are the same client. */
  lemma FieldsDetermineClient(a: T.Client, b: T.Client)
    requires forall f :: Get(a, f) == Get(b, f)
    ensures a == b
  {
    assert a.id == b.id by { assert Get(a, Id) == Get(b, Id); }
    assert a.code == b.code by { assert Get(a, Code) == Get(b, Code); }
    assert a.name == b.name by { assert Get(a, Name) == Get(b, Name); }
    assert a.edrpou == b.edrpou by { assert Get(a, Edrpou) == Get(b, Edrpou); }
    assert a.vat == b.vat by { assert Get(a, Vat) == Get(b, Vat); }
    assert a.city == b.city by { assert Get(a, City) == Get(b, City); }
    assert a.status == b.status by { assert Get(a, Status) == Get(b, Status); }
    assert a.sales == b.sales by { assert Get(a, Sales) == Get(b, Sales); }
    assert a.holding == b.holding by { assert Get(a, Holding) == Get(b, Holding); }
    assert a.lastContact == b.lastContact by { assert Get(a, LastContact) == Get(b, LastContact); }
    assert a.website == b.website by { assert Get(a, Website) == Get(b, Website); }
    assert a.address == b.address by { assert Get(a, Address) == Get(b, Address); }
    assert a.source == b.source by { assert Get(a, Source) == Get(b, Source); }
    assert a.companyType == b.companyType by { assert Get(a, CompanyType) == Get(b, CompanyType); }
    assert a.directions == b.directions by { assert Get(a, Directions) == Get(b, Directions); }
    assert a.services == b.services by { assert Get(a, Services) == Get(b, Services); }
    assert a.cargo == b.cargo by { assert Get(a, Cargo) == Get(b, Cargo); }
    assert a.whatShips == b.whatShips by { assert Get(a, WhatShips) == Get(b, WhatShips); }
    assert a.workingSince == b.workingSince by { assert Get(a, WorkingSince) == Get(b, WorkingSince); }
    assert a.notes == b.notes by { assert Get(a, Notes) == Get(b, Notes); }
    assert a.contacts == b.contacts by { assert Get(a, Contacts) == Get(b, Contacts); }
  }

  /** Writing a field's own value back changes nothing, and of two writes to
      the same field the later one wins. */
  lemma FieldChangeLaws(c: T.Client, f: ClientField, v: FieldValue, w: FieldValue)
    requires Fits(f, v) && Fits(f, w)
    ensures Fits(f, Get(c, f)) && FieldChange(c, f, Get(c, f)) == c
    ensures FieldChange(FieldChange(c, f, v), f, w) == FieldChange(c, f, w)
  {
    FieldsDetermineClient(FieldChange(c, f, Get(c, f)), c);
    FieldsDetermineClient(FieldChange(FieldChange(c, f, v), f, w), FieldChange(c, f, w));
  }

  /** `xs.filter(y => y !== x)`. */
  function Without<E(==)>(s: seq<E>, x: E): (r: seq<E>)
    ensures forall i :: 0 <= i < |r| ==> r[i] != x && r[i] in s
    ensures forall i :: 0 <= i < |s| && s[i] != x ==> s[i] in r
    ensures x !in s ==> r == s
  {
    if s == [] then [] else (if s[0] == x then [] else [s[0]]) + Without(s[1..], x)
  }

  lemma {:induction false} WithoutAppend<E>(a: seq<E>, b: seq<E>, x: E)
    ensures Without(a + b, x) == Without(a, x) + Without(b, x)
  {
    if a == [] {
      assert a + b == b;
    } else {
      assert (a + b)[1..] == a[1..] + b;
      WithoutAppend(a[1..], b, x);
    }
  }

  /** The checkbox toggle of directions and services: remove every occurrence
      of a present value, append an absent one. */
  function Toggle<E(==)>(xs: seq<E>, x: E): (r: seq<E>)
    ensures x in r <==> x !in xs
    ensures forall i :: 0 <= i < |xs| && xs[i] != x ==> xs[i] in r
    ensures forall i :: 0 <= i < |r| && r[i] != x ==> r[i] in xs
  {
    if x in xs then Without(xs, x) else xs + [x]
  }

  /** A toggle keeps the other entries in their order: the lists with the
      toggled value taken out agree before and after. */
  lemma ToggleKeepsOrder<E>(xs: seq<E>, x: E)
    ensures Without(Toggle(xs, x), x) == Without(xs, x)
  {
    if x !in xs {
      WithoutAppend(xs, [x], x);
      assert Without([x], x) == [];
    }
  }

  /** Toggling an absent value appends it, and toggling it again gives back
      the original list exactly. */
  lemma ToggleTwiceAbsent<E>(xs: seq<E>, x: E)
    requires x !in xs
    ensures Toggle(xs, x) == xs + [x]
    ensures Toggle(Toggle(xs, x), x) == xs
  {
    WithoutAppend(xs, [x], x);
    assert Without([x], x) == [];
  }

  /** Toggling a present value twice moves it, once, to the end. */
  lemma ToggleTwicePresent<E>(xs: seq<E>, x: E)
    requires x in xs
    ensures Toggle(Toggle(xs, x), x) == Without(xs, x) + [x]
  {
  }

  /** `handleDirectionToggle`. */
  function DirectionToggle(c: T.Client, d: T.Direction): (r: T.Client)
    ensures r.directions == Toggle(c.directions, d)
    ensures forall g :: g != Directions ==> Get(r, g) == Get(c, g)
  {
    FieldChange(c, Directions, DirectionsValue(Toggle(c.directions, d)))
  }

  /** `handleServiceToggle`. */
  function ServiceToggle(c: T.Client, s: T.Service): (r: T.Client)
    ensures r.services == Toggle(c.services, s)
    ensures forall g :: g != Services ==> Get(r, g) == Get(c, g)
  {
    FieldChange(c, Services, ServicesValue(Toggle(c.services, s)))
  }

  /** `keyof Contact`. */
  datatype ContactField = ContactId | FullName | Position | Phone | Email

  function GetContact(c: T.Contact, f: ContactField): string
  {
    match f
    case ContactId => c.id
    case FullName => c.fullName
    case Position => c.position
    case Phone => c.phone
    case Email => c.email
  }

  function SetContactField(c: T.Contact, f: ContactField, v: string): (r: T.Contact)
    ensures GetContact(r, f) == v
    ensures forall g :: g != f ==> GetContact(r, g) == GetContact(c, g)
  {
    match f
    case ContactId => c.(id := v)
    case FullName => c.(fullName := v)
    case Position => c.(position := v)
    case Phone => c.(phone := v)
    case Email => c.(email := v)
  }

  /** `handleAddContact`, with the generated id as a parameter. */
  function AddContact(c: T.Client, freshId: string): (r: T.Client)
    ensures |r.contacts| == |c.contacts| + 1
    ensures r.contacts[..|c.contacts|] == c.contacts
    ensures var added := r.contacts[|c.contacts|];
            added.id == freshId && added.fullName == "" && added.position == ""
            && added.phone == "" && added.email == ""
    ensures forall g :: g != Contacts ==> Get(r, g) == Get(c, g)
  {
    FieldChange(c, Contacts, ContactsValue(c.contacts + [T.Contact(freshId, "", "", "", "")]))
  }

  function ChangeIfId(ct: T.Contact, contactId: string, f: ContactField, v: string): T.Contact
  {
    if ct.id == contactId then SetContactField(ct, f, v) else ct
  }

  /** `handleContactChange`: `contacts.map(c => c.id === contactId ? { ...c, [field]: value } : c)`. */
  function ContactChange(c: T.Client, contactId: string, f: ContactField, v: string): (r: T.Client)
    ensures |r.contacts| == |c.contacts|
    ensures forall i, g :: 0 <= i < |c.contacts| ==>
              GetContact(r.contacts[i], g)
              == if c.contacts[i].id == contactId && g == f then v else GetContact(c.contacts[i], g)
    ensures forall g :: g != Contacts ==> Get(r, g) == Get(c, g)
  {
    FieldChange(c, Contacts, ContactsValue(seq(|c.contacts|, i requires 0 <= i < |c.contacts| => ChangeIfId(c.contacts[i], contactId, f, v))))
  }

  function HasOtherId(contactId: string): T.Contact -> bool
  {
    (ct: T.Contact) => ct.id != contactId
  }

  /** `handleRemoveContact`: `contacts.filter(c => c.id !== contactId)`. */
  function RemoveContact(c: T.Client, contactId: string): (r: T.Client)
    ensures forall i :: 0 <= i < |r.contacts| ==> r.contacts[i].id != contactId && r.contacts[i] in c.contacts
    ensures forall i :: 0 <= i < |c.contacts| && c.contacts[i].id != contactId ==> c.contacts[i] in r.contacts
    ensures r.contacts == Sequences.Filter(c.contacts, HasOtherId(contactId))
    ensures forall g :: g != Contacts ==> Get(r, g) == Get(c, g)
  {
    FieldChange(c, Contacts, ContactsValue(Sequences.Filter(c.contacts, HasOtherId(contactId))))
  }

  /** Removing keeps every copy of a contact with another id and no copy of
      one with this id. */
  lemma RemoveContactCounts(c: T.Client, contactId: string, x: T.Contact)
    ensures multiset(RemoveContact(c, contactId).contacts)[x]
            == if x.id != contactId then multiset(c.contacts)[x] else 0
  {
    Sequences.FilterCount(c.contacts, HasOtherId(contactId), x);
  }

  /** The kept contacts stay in their order: removing from a list made of two
      parts removes from each part and joins the results. */
  lemma RemoveContactKeepsOrder(c: T.Client, contactId: string, a: seq<T.Contact>, b: seq<T.Contact>)
    requires c.contacts == a + b
    ensures RemoveContact(c, contactId).contacts
            == RemoveContact(c.(contacts := a), contactId).contacts
               + RemoveContact(c.(contacts := b), contactId).contacts
  {
    Sequences.FilterAppend(a, b, HasOtherId(contactId));
  }

  /** Removing an id that no contact has leaves the client unchanged. */
  lemma RemoveAbsentContact(c: T.Client, contactId: string)
    requires !Sequences.HasId(c.contacts, T.ContactId, contactId)
    ensures RemoveContact(c, contactId) == c
  {
    forall i | 0 <= i < |c.contacts| ensures HasOtherId(contactId)(c.contacts[i]) {
      assert T.ContactId(c.contacts[i]) != contactId;
    }
    Sequences.FilterKeepsAll(c.contacts, HasOtherId(contactId));
    FieldChangeLaws(c, Contacts, ContactsValue(c.contacts), ContactsValue(c.contacts));
  }

  const NoHolding := "No Holding"

  /** The holding select's item for the edited client. */
  function HoldingShown(c: T.Client): (item: string)
    ensures item != ""
    ensures item == NoHolding <==> c.holding == "" || c.holding == NoHolding
    ensures c.holding != "" ==> item == c.holding
  {
    Selects.Shown(c.holding, NoHolding)
  }

  /** Choosing an item in the holding select. */
  function ChooseHolding(c: T.Client, item: string): (r: T.Client)
    ensures item == NoHolding ==> r.holding == ""
    ensures item != NoHolding ==> r.holding == item
    ensures forall g :: g != Holding ==> Get(r, g) == Get(c, g)
  {
    FieldChange(c, Holding, Text(Selects.Stored(item, NoHolding)))
  }

  /** Choosing the item shown leaves the client as it was, unless its holding
      is literally named "No Holding". */
  lemma ChooseShownHolding(c: T.Client)
    ensures ChooseHolding(c, HoldingShown(c)) == c <==> c.holding != NoHolding
  {
    var r := ChooseHolding(c, HoldingShown(c));
    if c.holding != NoHolding {
      Selects.StoredAfterShown(c.holding, NoHolding);
      FieldChangeLaws(c, Holding, Text(c.holding), Text(c.holding));
    } else {
      assert r.holding == "";
    }
  }
}
