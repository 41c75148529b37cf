/** Clients of the handlers, each on a fresh, empty store. */
module Scenarios {
  import opened Responses
  import opened Records
  import opened Auth
  import opened Pricing
  import opened Controller

  /**
   * Listing restaurants twice: the first listing seeds two restaurants and
   * three foods, the second returns the same two and seeds nothing more.
   */
  method ListTwice() returns (first: seq<Restaurant>, second: seq<Restaurant>, foodCount: nat,
                              menu1: seq<Food>, menu2: seq<Food>)
    ensures |first| == 2 && second == first
    ensures foodCount == 3
    ensures |menu1| == 2 && menu1[0].name == "Hyderabadi Biryani" && menu1[1].name == "Chicken Biryani"
    ensures |menu2| == 1 && menu2[0].name == "Masala Dosa"
  {
    var db := new Db();
    ghost var base := db.nextId;
    first := db.GetRestaurants();
    assert first == SeedRestaurants(base) && db.foods == SeedFoods(base);
    second := db.GetRestaurants();
    foodCount := |db.foods|;
    SeedMenuNames(base);
    menu1 := db.GetRestaurantMenu(first[0].id);
    menu2 := db.GetRestaurantMenu(first[1].id);
  }

  /** The seeded menus, by dish name. */
  lemma SeedMenuNames(base: nat)
    ensures var menu := FoodsOf(SeedFoods(base), SeedRestaurants(base)[0].id);
      |menu| == 2 && menu[0].name == "Hyderabadi Biryani" && menu[1].name == "Chicken Biryani"
    ensures var menu := FoodsOf(SeedFoods(base), SeedRestaurants(base)[1].id);
      |menu| == 1 && menu[0].name == "Masala Dosa"
  {
    SeedMenus(base);
  }

  /** A cart line for the first seeded dish is priced at that dish's 250, whatever price the client sends. */
  lemma SeededDishPrice(base: nat, qty: int, clientPrice: Option<int>)
    requires qty != 0
    ensures CartTotal(SeedFoods(base), [CartLine(Some(IdText(base + 2)), Some(qty), clientPrice)]) == 250 * qty
  {
    var line := CartLine(Some(IdText(base + 2)), Some(qty), clientPrice);
    assert FirstWithId(SeedFoods(base), line.id, 0);
    assert [line][..0] == [];
  }

  /**
   * Signup, a second signup with the same email, and a login with the same
   * credentials, which yields a token that verifies to the new user's id,
   * email and name.
   */
  method SignupThenLogin(crypto: Crypto)
    returns (signup: Response<SignupReply>, again: Response<SignupReply>, token: Response<string>)
    requires PasswordsMatchHashes(crypto) && TokensVerify(crypto)
    ensures signup.Ok? && again == Err(400, "Email already registered")
    ensures token.Ok? && crypto.verify(token.value) == Some(Claims(signup.value.id, "a@x.com", "A"))
  {
    var db := new Db();
    signup := db.Signup(crypto, "A", "a@x.com", "p");
    again := db.Signup(crypto, "A", "a@x.com", "p");
    db.LoginWithHashedPassword(crypto, 0, "p");
    token := db.Login(crypto, "a@x.com", "p");
  }

  /** A bearer header carrying a signed token authenticates as the signed claims. */
  lemma BearerIdentifies(crypto: Crypto, claims: Claims)
    requires TokensVerify(crypto)
    ensures AuthenticateOptional(crypto, Some("Bearer " + crypto.sign(claims))) == Some(claims)
  {
    SignedHeaderIdentifies(crypto, "Bearer", claims);
    assert "Bearer " + crypto.sign(claims) == "Bearer" + " " + crypto.sign(claims);
  }

  /** A one-line cart naming the only food in the catalog, with a non-zero quantity and no client price, costs its price times the quantity. */
  lemma OneLineTotal(foods: seq<Food>, dish: Food, qty: int)
    requires foods == [dish] && dish.price.Some? && qty != 0
    ensures CartTotal(foods, [CartLine(Some(dish.id), Some(qty), None)]) == dish.price.value * qty
  {
    var cart := [CartLine(Some(dish.id), Some(qty), None)];
    assert FirstWithId(foods, Some(dish.id), 0);
    assert UnitPrice(foods, Some(dish.id)) == dish.price.value;
    assert cart[..0] == [];
    assert CartTotal(foods, cart) == LineAmount(foods, cart[0]);
  }

  /**
   * After a restaurant and a food priced 80 on its menu are added and a user
   * signs up and logs in, an order of two portions of it placed under the
   * login's token is in that user's order history at 2 x 80; without a header
   * the history is refused.
   */
  method OrderThenHistory(crypto: Crypto)
    returns (signup: Response<SignupReply>, login: Response<string>, placed: Response<string>,
             mine: Response<seq<Order>>, anonymous: Response<seq<Order>>)
    requires PasswordsMatchHashes(crypto) && TokensVerify(crypto)
    ensures signup.Ok? && login.Ok? && placed.Ok? && mine.Ok?
    ensures AuthenticateOptional(crypto, Some("Bearer " + login.value)).Some?
    ensures AuthenticateOptional(crypto, Some("Bearer " + login.value)).value.id == signup.value.id
    ensures exists o :: o in mine.value && o.id == placed.value && o.total == 2 * 80
    ensures anonymous == Err(401, "Missing auth")
  {
    var db := new Db();
    var restaurant := db.AddRestaurant("R", None);
    var added := db.AddFood(restaurant.value.id, "Dosa", None, Some(80), None);
    var dish := added.value;
    signup := db.Signup(crypto, "A", "a@x.com", "p");
    var user := db.users[0];
    db.LoginWithHashedPassword(crypto, 0, "p");
    login := db.Login(crypto, "a@x.com", "p");
    var header := Some("Bearer " + login.value);
    BearerIdentifies(crypto, ClaimsOf(user));
    var cart := [CartLine(Some(dish.id), Some(2), None)];
    OneLineTotal(db.foods, dish, 2);
    placed := db.PlaceOrder(crypto, header, cart, Customer(Some("A"), None), 0);
    var order := db.orders[0];
    assert order.user == Some(user.id) && order.id == placed.value && order.total == 2 * 80;
    mine := db.GetMyOrders(crypto, header);
    assert order in mine.value;
    anonymous := db.GetMyOrders(crypto, None);
  }
}
