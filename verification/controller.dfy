/**
 * The request handlers over an in-memory store. Each collection is a
 * sequence field of `Db`, in insertion order; the handlers that create
 * documents append to it and draw a fresh id from the store's counter.
 */
module Controller {
  import opened Responses
  import opened Records
  import opened Header
  import opened Auth
  import opened Pricing

  /** The body of a successful signup: the new user's id and a token for it. */
  datatype SignupReply = SignupReply(id: string, token: string)

  /** `User.findOne({ email })`: the first user registered under `email`. */
  function FindUser(users: seq<User>, email: string): (u: Option<User>)
    ensures u.Some? ==> u.value in users && u.value.email == email
    ensures u.None? <==> forall j :: 0 <= j < |users| ==> users[j].email != email
  {
    if users == [] then None
    else if users[0].email == email then Some(users[0])
    else
      assert forall j :: 1 <= j < |users| ==> users[j] == users[1..][j - 1];
      FindUser(users[1..], email)
  }

  /** In a store where emails are unique, the lookup by email finds the one user registered under it. */
  lemma {:induction false} FindUserUnique(users: seq<User>, i: nat)
    requires i < |users|
    requires forall a, b :: 0 <= a < b < |users| ==> users[a].email != users[b].email
    ensures FindUser(users, users[i].email) == Some(users[i])
  {
    if i > 0 {
      assert users[0].email != users[i].email;
      FindUserUnique(users[1..], i - 1);
    }
  }

  /** `Order.find({ user: id })`: the orders placed under `id`, in store order. */
  function OrdersOf(orders: seq<Order>, id: string): (mine: seq<Order>)
    ensures |mine| <= |orders|
    ensures forall o :: o in mine <==> o in orders && o.user == Some(id)
  {
    if orders == [] then []
    else
      assert forall o :: o in orders <==> o == orders[0] || o in orders[1..];
      (if orders[0].user == Some(id) then [orders[0]] else []) + OrdersOf(orders[1..], id)
  }

  /** Each order of `id` is listed as often as it is stored, and no other order is listed. */
  lemma {:induction false} OrdersOfCount(orders: seq<Order>, id: string)
    ensures forall o :: multiset(OrdersOf(orders, id))[o] == (if o.user == Some(id) then multiset(orders)[o] else 0)
  {
    if orders != [] {
      assert orders == [orders[0]] + orders[1..];
      OrdersOfCount(orders[1..], id);
    }
  }

  /** The orders of `id` keep store order: a new order is listed after the earlier ones. */
  lemma {:induction false} OrdersOfAppend(orders: seq<Order>, o: Order, id: string)
    ensures OrdersOf(orders + [o], id) == OrdersOf(orders, id) + (if o.user == Some(id) then [o] else [])
  {
    if orders == [] {
      assert OrdersOf([o][1..], id) == [];
    } else {
      assert (orders + [o])[0] == orders[0] && (orders + [o])[1..] == orders[1..] + [o];
      OrdersOfAppend(orders[1..], o, id);
    }
  }

  /** `Food.find({ restaurant: id })`: the foods owned by restaurant `id`, in store order. */
  function FoodsOf(foods: seq<Food>, id: string): (menu: seq<Food>)
    ensures |menu| <= |foods|
    ensures forall f :: f in menu <==> f in foods && f.restaurant == id
  {
    if foods == [] then []
    else
      assert forall f :: f in foods <==> f == foods[0] || f in foods[1..];
      (if foods[0].restaurant == id then [foods[0]] else []) + FoodsOf(foods[1..], id)
  }

  /** Each food of restaurant `id` is listed as often as it is stored, and no other food is listed. */
  lemma {:induction false} FoodsOfCount(foods: seq<Food>, id: string)
    ensures forall f :: multiset(FoodsOf(foods, id))[f] == (if f.restaurant == id then multiset(foods)[f] else 0)
  {
    if foods != [] {
      assert foods == [foods[0]] + foods[1..];
      FoodsOfCount(foods[1..], id);
    }
  }

  /** A restaurant's menu keeps store order: a new food is listed after the earlier ones. */
  lemma {:induction false} FoodsOfAppend(foods: seq<Food>, f: Food, id: string)
    ensures FoodsOf(foods + [f], id) == FoodsOf(foods, id) + (if f.restaurant == id then [f] else [])
  {
    if foods == [] {
      assert FoodsOf([f][1..], id) == [];
    } else {
      assert (foods + [f])[0] == foods[0] && (foods + [f])[1..] == foods[1..] + [f];
      FoodsOfAppend(foods[1..], f, id);
    }
  }

  /** The two restaurants created when the first listing finds none, with ids from counter `base` on. */
  function SeedRestaurants(base: nat): (seeded: seq<Restaurant>)
    ensures |seeded| == 2 && seeded[0].id != seeded[1].id
    ensures forall r :: r in seeded ==> r.name != "" && r.description.Some?
  {
    IdTextDistinct(base, base + 1);
    [ Restaurant(IdText(base), "Biryani Palace", Some("Authentic Hyderabadi biryani")),
      Restaurant(IdText(base + 1), "Dosa Corner", Some("Crispy South Indian dosas")) ]
  }

  /** The three foods created with them: two for the first restaurant, one for the second. */
  function SeedFoods(base: nat): (seeded: seq<Food>)
    ensures |seeded| == 3
    ensures forall f :: f in seeded ==> f.restaurant == IdText(base) || f.restaurant == IdText(base + 1)
    ensures forall f :: f in seeded ==> f.name != "" && f.price.Some? && f.price.value > 0
    ensures seeded[0].id != seeded[1].id && seeded[0].id != seeded[2].id && seeded[1].id != seeded[2].id
  {
    IdTextDistinct(base + 2, base + 3);
    IdTextDistinct(base + 2, base + 4);
    IdTextDistinct(base + 3, base + 4);
    [ Food(IdText(base + 2), IdText(base), "Hyderabadi Biryani",
           Some("Fragrant rice with marinated meat"), Some(250), None),
      Food(IdText(base + 3), IdText(base), "Chicken Biryani",
           Some("Spiced chicken with rice"), Some(220), None),
      Food(IdText(base + 4), IdText(base + 1), "Masala Dosa",
           Some("Crispy dosa with potato masala"), Some(80), None) ]
  }

  /** The seed gives the first restaurant two dishes and the second one dish. */
  lemma SeedMenus(base: nat)
    ensures |SeedRestaurants(base)| == 2 && |SeedFoods(base)| == 3
    ensures FoodsOf(SeedFoods(base), SeedRestaurants(base)[0].id) == SeedFoods(base)[..2]
    ensures FoodsOf(SeedFoods(base), SeedRestaurants(base)[1].id) == SeedFoods(base)[2..]
  {
    var r1, r2 := IdText(base), IdText(base + 1);
    IdTextDistinct(base, base + 1);
    var fs := SeedFoods(base);
    assert fs[1..][1..] == [fs[2]] && fs[1..][1..][1..] == [];
    assert FoodsOf(fs[1..][1..], r1) == [];
    assert FoodsOf(fs[1..], r1) == [fs[1]];
    assert FoodsOf(fs, r1) == [fs[0], fs[1]];
    assert FoodsOf(fs[1..][1..], r2) == [fs[2]];
    assert FoodsOf(fs[1..], r2) == [fs[2]];
  }

  class Db {
    var users: seq<User>
    var restaurants: seq<Restaurant>
    var foods: seq<Food>
    var orders: seq<Order>
    /** Counter behind the ids of new documents. */
    var nextId: nat

    /** No two users share an email. */
    ghost predicate Valid()
      reads this
    {
      forall i, j :: 0 <= i < j < |users| ==> users[i].email != users[j].email
    }

    constructor ()
      ensures Valid()
      ensures users == [] && restaurants == [] && foods == [] && orders == [] && nextId == 0
    {
      users, restaurants, foods, orders, nextId := [], [], [], [], 0;
    }

    /** A fresh document id. */
    method NewId() returns (id: string)
      modifies this`nextId
      ensures id == IdText(old(nextId)) && nextId == old(nextId) + 1
    {
      id := IdText(nextId);
      nextId := nextId + 1;
    }

    /**
     * `POST /api/auth/signup`. An empty or missing field is refused, so is an
     * email already registered; otherwise one user is appended, holding the
     * hash of the password, and a token for it is returned.
     */
    method Signup(crypto: Crypto, name: string, email: string, password: string)
      returns (r: Response<SignupReply>)
      requires Valid()
      modifies this
      ensures Valid()
      ensures restaurants == old(restaurants) && foods == old(foods) && orders == old(orders)
      ensures name == "" || email == "" || password == "" ==>
        r == Err(400, "Missing fields") && users == old(users) && nextId == old(nextId)
      ensures name != "" && email != "" && password != "" && FindUser(old(users), email).Some? ==>
        r == Err(400, "Email already registered") && users == old(users) && nextId == old(nextId)
      ensures name != "" && email != "" && password != "" && FindUser(old(users), email).None? ==>
        var user := User(IdText(old(nextId)), name, email, crypto.hash(password));
        && users == old(users) + [user]
        && nextId == old(nextId) + 1
        && r == Ok(SignupReply(user.id, CreateToken(crypto, user)))
    {
      if name == "" || email == "" || password == "" {
        return Err(400, "Missing fields");
      }
      if FindUser(users, email).Some? {
        return Err(400, "Email already registered");
      }
      var hash := crypto.hash(password);
      var id := NewId();
      var user := User(id, name, email, hash);
      users := users + [user];
      r := Ok(SignupReply(user.id, CreateToken(crypto, user)));
    }

    /**
     * `POST /api/auth/login`: a token for the user registered under `email`
     * when the password matches its stored hash. An unknown email and a wrong
     * password get the same reply.
     */
    function Login(crypto: Crypto, email: string, password: string): (r: Response<string>)
      reads this
      ensures r.Err? ==> r == Err(401, "Invalid credentials")
      ensures r.Ok? <==>
        FindUser(users, email).Some? && crypto.compare(password, FindUser(users, email).value.password)
      ensures r.Ok? ==> r.value == CreateToken(crypto, FindUser(users, email).value)
    {
      match FindUser(users, email)
      case None => Err(401, "Invalid credentials")
      case Some(user) =>
        if !crypto.compare(password, user.password) then Err(401, "Invalid credentials")
        else Ok(CreateToken(crypto, user))
    }

    /**
     * Logging in with the password whose hash a user holds succeeds and
     * returns that user's token (passwords being checked against hashes).
     */
    lemma LoginWithHashedPassword(crypto: Crypto, i: nat, password: string)
      requires Valid()
      requires PasswordsMatchHashes(crypto)
      requires i < |users| && users[i].password == crypto.hash(password)
      ensures Login(crypto, users[i].email, password) == Ok(CreateToken(crypto, users[i]))
    {
      FindUserUnique(users, i);
    }

    /** `POST /api/restaurants`: refused without a name, otherwise appends one restaurant. */
    method AddRestaurant(name: string, description: Option<string>) returns (r: Response<Restaurant>)
      requires Valid()
      modifies this
      ensures Valid()
      ensures users == old(users) && foods == old(foods) && orders == old(orders)
      ensures name == "" ==>
        r == Err(400, "Missing name") && restaurants == old(restaurants) && nextId == old(nextId)
      ensures name != "" ==>
        var created := Restaurant(IdText(old(nextId)), name, description);
        && r == Ok(created)
        && restaurants == old(restaurants) + [created]
        && nextId == old(nextId) + 1
    {
      if name == "" {
        return Err(400, "Missing name");
      }
      var id := NewId();
      var created := Restaurant(id, name, description);
      restaurants := restaurants + [created];
      r := Ok(created);
    }

    /**
     * `POST /api/foods`: refused without a restaurant id or a name, otherwise
     * appends one food. The restaurant id is not checked against the store.
     */
    method AddFood(restaurantId: string, name: string, description: Option<string>,
                   price: Option<int>, image: Option<string>) returns (r: Response<Food>)
      requires Valid()
      modifies this
      ensures Valid()
      ensures users == old(users) && restaurants == old(restaurants) && orders == old(orders)
      ensures restaurantId == "" || name == "" ==>
        r == Err(400, "Missing fields") && foods == old(foods) && nextId == old(nextId)
      ensures restaurantId != "" && name != "" ==>
        var created := Food(IdText(old(nextId)), restaurantId, name, description, price, image);
        && r == Ok(created)
        && foods == old(foods) + [created]
        && nextId == old(nextId) + 1
    {
      if restaurantId == "" || name == "" {
        return Err(400, "Missing fields");
      }
      var id := NewId();
      var created := Food(id, restaurantId, name, description, price, image);
      foods := foods + [created];
      r := Ok(created);
    }

    /**
     * `GET /api/restaurants`: the stored restaurants; when there are none,
     * first creates the two sample restaurants and their three foods.
     */
    method GetRestaurants() returns (list: seq<Restaurant>)
      requires Valid()
      modifies this
      ensures Valid()
      ensures users == old(users) && orders == old(orders)
      ensures old(restaurants) != [] ==>
        && list == old(restaurants)
        && restaurants == old(restaurants) && foods == old(foods) && nextId == old(nextId)
      ensures old(restaurants) == [] ==>
        && list == restaurants == SeedRestaurants(old(nextId))
        && foods == old(foods) + SeedFoods(old(nextId))
        && nextId == old(nextId) + 5
    {
      if restaurants != [] {
        return restaurants;
      }
      var id1 := NewId();
      var r1 := Restaurant(id1, "Biryani Palace", Some("Authentic Hyderabadi biryani"));
      restaurants := restaurants + [r1];
      var id2 := NewId();
      var r2 := Restaurant(id2, "Dosa Corner", Some("Crispy South Indian dosas"));
      restaurants := restaurants + [r2];
      var f1 := NewId();
      foods := foods + [Food(f1, r1.id, "Hyderabadi Biryani",
                             Some("Fragrant rice with marinated meat"), Some(250), None)];
      var f2 := NewId();
      foods := foods + [Food(f2, r1.id, "Chicken Biryani",
                             Some("Spiced chicken with rice"), Some(220), None)];
      var f3 := NewId();
      foods := foods + [Food(f3, r2.id, "Masala Dosa",
                             Some("Crispy dosa with potato masala"), Some(80), None)];
      list := [r1, r2];
    }

    /** `GET /api/restaurants/:id/menu`: exactly the stored foods owned by restaurant `id`. */
    function GetRestaurantMenu(id: string): (menu: seq<Food>)
      reads this
      ensures forall f :: f in menu <==> f in foods && f.restaurant == id
      ensures forall f :: multiset(menu)[f] == (if f.restaurant == id then multiset(foods)[f] else 0)
    {
      FoodsOfCount(foods, id);
      FoodsOf(foods, id)
    }

    /**
     * `POST /api/orders`: refused when the cart is empty; otherwise appends one
     * order priced from the catalog, owned by the optionally identified user.
     */
    method PlaceOrder(crypto: Crypto, authorization: Option<string>, items: seq<CartLine>,
                      customer: Customer, now: int) returns (r: Response<string>)
      requires Valid()
      modifies this
      ensures Valid()
      ensures users == old(users) && restaurants == old(restaurants) && foods == old(foods)
      ensures items == [] ==>
        r == Err(400, "No items") && orders == old(orders) && nextId == old(nextId)
      ensures items != [] ==>
        && nextId == old(nextId) + 1
        && |orders| == |old(orders)| + 1
        && orders[..|old(orders)|] == old(orders)
        && var order := orders[|old(orders)|];
        && r == Ok(order.id)
        && order.id == IdText(old(nextId))
        && order.user == Owner(AuthenticateOptional(crypto, authorization))
        && order.total == CartTotal(foods, items)
        && |order.items| == |items|
        && (forall i :: 0 <= i < |items| ==> order.items[i] == OrderItem(items[i].id, items[i].qty))
        && order.customer == customer
        && order.status == PLACED
        && order.createdAt == now
    {
      var userId := Owner(AuthenticateOptional(crypto, authorization));
      if items == [] {
        return Err(400, "No items");
      }
      var total, orderItems := PriceCart(foods, items);
      var id := NewId();
      var order := Order(id, userId, orderItems, customer, total, PLACED, now);
      orders := orders + [order];
      r := Ok(id);
    }

    /**
     * `GET /api/orders/my`: 401 with its own message for a missing header, a
     * malformed header and a token that does not verify; otherwise exactly the
     * stored orders whose user is the token's id.
     */
    function GetMyOrders(crypto: Crypto, authorization: Option<string>): (r: Response<seq<Order>>)
      reads this
      ensures r.Err? ==> r.status == 401 && RequireAuth(crypto, authorization) == Err(401, r.message)
      ensures r.Ok? <==> AuthenticateOptional(crypto, authorization).Some?
      ensures r.Ok? ==> forall o :: o in r.value <==>
        o in orders && o.user == Some(AuthenticateOptional(crypto, authorization).value.id)
      ensures r.Ok? ==> forall o :: multiset(r.value)[o] == (if o.user ==
        Some(AuthenticateOptional(crypto, authorization).value.id) then multiset(orders)[o] else 0)
    {
      RequiredAgreesWithOptional(crypto, authorization);
      match RequireAuth(crypto, authorization)
      case Err(status, message) => Err(status, message)
      case Ok(claims) => OrdersOfCount(orders, claims.id); Ok(OrdersOf(orders, claims.id))
    }
  }
}
