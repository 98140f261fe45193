/**
 The values the stock-portfolio page works with: the user records and the
 stock records it is given at start-up, and the values its view surfaces show
 (list entries, form values, portfolio rows, the stock-detail panel).
 */
module Records {

  datatype Option<T> = None | Some(value: T)

  /** A user id. The page compares ids loosely (a number in the data, a string in
      the form and in data attributes); here every id is one normalised string. */
  type Id = string

  /** The five editable fields of a user. */
  datatype Profile = Profile(
    firstname: string,
    lastname: string,
    address: string,
    city: string,
    email: string)

  /** One holding of a portfolio: a stock symbol and the number of shares owned. */
  datatype Holding = Holding(symbol: string, owned: int)

  /** A user record: its id, its editable fields and its portfolio. */
  datatype User = User(id: Id, profile: Profile, portfolio: seq<Holding>)

  /** A stock record of the read-only reference data. */
  datatype Stock = Stock(
    symbol: string,
    name: string,
    sector: string,
    subIndustry: string,
    address: string)

  /** One item of the rendered user list: its text and the id in its data attribute. */
  datatype Entry = Entry(text: string, userId: Id)

  /** One rendered portfolio row: symbol, shares owned, and a View button whose
      data attribute is the same symbol. */
  datatype Row = Row(symbol: string, owned: int)

  /** The contents of the edit form: the id input and the five field inputs. */
  datatype FormValues = FormValues(id: Id, profile: Profile)

  /** The stock-detail panel: four text fields and the logo image source. */
  datatype Detail = Detail(
    name: string,
    sector: string,
    industry: string,
    address: string,
    logo: string)

  /** The element a click lands on: its tag name and the value of its data
      attribute (the user id of a list item, the symbol of a View button). */
  datatype Target = Target(tagName: string, key: string)

  const EmptyProfile := Profile("", "", "", "", "")

  /** The form as it is after a reset. */
  const EmptyForm := FormValues("", EmptyProfile)

  /** The detail panel with every field and the logo blank. */
  const BlankDetail := Detail("", "", "", "", "")
}
