/** The record shapes of the CRM: the enumerations, contacts, clients,
    quotations and rate-search observations. Numbers that the front end keeps
    as JavaScript numbers (charges, totals, transit days, prices) are
    integers here. */
module Types {

  datatype Option<+T> = None | Some(value: T)

  datatype ClientStatus = New | Potential | Active | Lost | Declined | BringsOwn | ClientLeft

  datatype CompanyType = Forwarder | Broker | Manufacturer | Trader

  datatype Direction = Import | Export | Transit

  datatype Service = Freight | Auto | FTL | Rail | LCL | Air

  datatype City = Kyiv | Odesa | Kharkiv | Dnipro | Lviv

  /** "20'", "40'", "40HC" and "Tent". */
  datatype ContainerType = Twenty | Forty | FortyHC | Tent

  datatype Contact = Contact(id: string, fullName: string, position: string, phone: string, email: string)

  datatype Client = Client(
    id: string,
    code: string,
    name: string,
    edrpou: string,
    vat: string,
    city: City,
    status: ClientStatus,
    sales: string,
    holding: string,
    lastContact: string,
    website: string,
    address: string,
    source: string,
    companyType: CompanyType,
    directions: seq<Direction>,
    services: seq<Service>,
    cargo: string,
    whatShips: string,
    workingSince: string,
    notes: string,
    contacts: seq<Contact>)

  /** `clientId` and `clientName` are optional properties of the record. */
  datatype Quotation = Quotation(
    id: string,
    code: string,
    date: string,
    from: string,
    to: string,
    containerType: ContainerType,
    freight: int,
    dpp: int,
    forwarding: int,
    t1: int,
    auto: int,
    rail: int,
    total: int,
    shippingLine: string,
    agent: string,
    sales: string,
    transit: int,
    clientId: Option<string>,
    clientName: Option<string>)

  datatype RateSearchResult = RateSearchResult(
    date: string,
    from: string,
    to: string,
    containerType: ContainerType,
    price: int,
    shippingLine: string)

  /** The id accessors, passed to the generic collection functions. */
  function ClientId(c: Client): string { c.id }

  function QuotationId(q: Quotation): string { q.id }

  function ContactId(c: Contact): string { c.id }
}
