/** The documents of the four collections: users, restaurants, foods and orders. */
module Records {
  import opened Responses

  datatype User = User(id: string, name: string, email: string, password: string)

  datatype Restaurant = Restaurant(id: string, name: string, description: Option<string>)

  /** A menu entry; `restaurant` is the owning restaurant's id, `price` may be absent. */
  datatype Food = Food(
    id: string,
    restaurant: string,
    name: string,
    description: Option<string>,
    price: Option<int>,
    image: Option<string>)

  datatype Customer = Customer(name: Option<string>, address: Option<string>)

  /** One stored line of an order: the food id and the quantity exactly as the client sent them. */
  datatype OrderItem = OrderItem(food: Option<string>, qty: Option<int>)

  datatype Order = Order(
    id: string,
    user: Option<string>,
    items: seq<OrderItem>,
    customer: Customer,
    total: int,
    status: string,
    createdAt: int)

  /** The status every order is created with (the schema's default). */
  const PLACED := "Placed"

  /** Width, in hexadecimal digits, of the text form of a document id (12 bytes). */
  const ID_WIDTH := 24

  function HexDigit(d: nat): (c: char)
    requires d < 16
    ensures '0' <= c <= '9' || 'a' <= c <= 'f'
  {
    if d < 10 then ('0' as int + d) as char else ('a' as int + d - 10) as char
  }

  /** The low `width` hexadecimal digits of `n`, most significant first. */
  function Hex(n: nat, width: nat): (s: string)
    ensures |s| == width
    ensures width > 0 ==> s[width - 1] == HexDigit(n % 16)
  {
    if width == 0 then "" else Hex(n / 16, width - 1) + [HexDigit(n % 16)]
  }

  /** The text form of the `n`-th document id the store hands out. */
  function IdText(n: nat): (s: string)
    ensures |s| == ID_WIDTH
    ensures forall i :: 0 <= i < |s| ==> '0' <= s[i] <= '9' || 'a' <= s[i] <= 'f'
  {
    HexIsLowerHex(n, ID_WIDTH);
    Hex(n, ID_WIDTH)
  }

  lemma {:induction false} HexIsLowerHex(n: nat, width: nat)
    ensures forall i :: 0 <= i < width ==> '0' <= Hex(n, width)[i] <= '9' || 'a' <= Hex(n, width)[i] <= 'f'
  {
    if width > 0 {
      HexIsLowerHex(n / 16, width - 1);
      assert Hex(n, width) == Hex(n / 16, width - 1) + [HexDigit(n % 16)];
    }
  }

  /** Ids handed out at counters that differ modulo 16 differ in their last digit. */
  lemma IdTextDistinct(a: nat, b: nat)
    requires a % 16 != b % 16
    ensures IdText(a) != IdText(b)
  {
    assert IdText(a)[ID_WIDTH - 1] == HexDigit(a % 16);
    assert IdText(b)[ID_WIDTH - 1] == HexDigit(b % 16);
  }
}
