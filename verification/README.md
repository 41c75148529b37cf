# Food-ordering backend: a Dafny model of its request handlers

The system is a small HTTP backend for ordering food. Users sign up and log
in and receive a bearer token (a JSON Web Token, RFC 7519). Anyone can list
restaurants and their menus and add restaurants and foods. An order is a cart
of `{ id, qty }` lines, priced by the server from the food catalog; it is
owned by the user whose token accompanies it, or by nobody. A user's order
history needs a valid token.

The model covers the handlers in `Controller/Controller.js`. The four
collections (users, restaurants, foods, orders) become sequence fields of the
class `Controller.Db`, in insertion order. Document ids come from a counter in
the store, written as 24 lower-case hexadecimal digits (`Records.IdText`),
like the text form of a database id. Password hashing and token signing and
verification happen inside libraries. They are the four functions of an
`Auth.Crypto` value. Every handler that hashes, signs or verifies (`Signup`,
`Login`, `PlaceOrder`, `GetMyOrders`) takes it as a parameter. Two predicates
state what the scenarios and lemmas assume about them:

- `PasswordsMatchHashes`: a password matches its own hash.
- `TokensVerify`: a signed token verifies to its claims and contains no space.

No handler requires either of them. They are required only by lemmas such as
`Controller.Db.LoginWithHashedPassword` and `Auth.SignedHeaderIdentifies`, and
by the scenarios.

Modules, leaves first:

- `Responses`: `Option` and `Response` (a success body, or an HTTP status with the error message).
- `Records`: the documents and the id text.
- `Header`: JavaScript's `split(' ')` and reading the `Authorization` header.
- `Auth`: claims, tokens, and the optional and required identification.
- `Pricing`: the cart total of `placeOrder` and the stored order items.
- `Controller`: the store class and the handlers.
- `Scenarios`: clients that run handlers on a fresh store.

Modelling choices:

- A body field that the code tests with `!x` is a `string`. The empty string stands for both a missing and an empty value, since the code treats the two alike.
- A cart line's `id` and `qty` and a food's `price` are optional values, because `it.qty || 1` and `f?.price || 0` treat a missing value on purpose.
- Prices and quantities are integers.
- A cart line also carries the price a client may send, so that the model can prove the server never reads it.
- The cart of `placeOrder` is a sequence: a missing `items` is the empty sequence (the code's default `[]`), and a missing `customer` is `Customer(None, None)`.
- `createdAt` (the clock) is a parameter of `PlaceOrder`.

Three behaviours of the code a reader might not expect:

- A quantity of 0 is priced as 1, not only a missing one (`qty || 1`).
- Nothing stops a food price or a quantity from being negative. A negative quantity is kept and lowers the total (`Pricing.NegativeQuantityLowersTotal`).
- `addFood` does not check that the restaurant exists.

## Model

| member | source | states |
|---|---|---|
| `Header.Split` | Controller/Controller.js:100 | `header.split(' ')`: one part more than there are spaces, and no part contains a space |
| `Header.JoinSplit` | Controller/Controller.js:100 | joining the parts back with a space gives the original header |
| `Header.SplitJoin` | Controller/Controller.js:100 | splitting the join of any non-empty list of space-free parts gives back those parts, so the split is the only such decomposition |
| `Header.SplitOneSeparator` | Controller/Controller.js:100-102 | a header with exactly one space splits into the text before that space and the text after it |
| `Header.ParseAuthorization` | Controller/Controller.js:98-102 | absent or empty header: no header; exactly two parts if and only if exactly one space; the token is the text after that space, and the scheme word is never read |
| `Header.ParseBearer` | Controller/Controller.js:100-102 | any space-free scheme word, one space and a space-free token parse to that token |
| `Auth.CreateToken` | Controller/Controller.js:9 | the issued token verifies to the user's id, email and name and contains no space |
| `Auth.AuthenticateOptional` | Controller/Controller.js:97-109 | no identity when the header is absent or does not have exactly one space; otherwise the verifier's answer for the text after the space |
| `Auth.RequireAuth` | Controller/Controller.js:139-149 | 401 "Missing auth" exactly when the header is absent or empty; 401 "Invalid auth" exactly when it does not have exactly one space; 401 "Invalid token" exactly when the token does not verify; no other failure; on success, the claims the optional check gives for the same header |
| `Auth.RequiredAgreesWithOptional` | Controller/Controller.js:139-149 | the copy of the header check in `getMyOrders` accepts exactly the headers the optional check accepts, with the same claims |
| `Auth.SignedHeaderIdentifies` | Controller/Controller.js:97-109 | a header made of any scheme word, a space and a server-signed token identifies that token's claims on both paths |
| `Auth.Owner` | Controller/Controller.js:114 | the order's user is the claims' id, or none when there are no claims or the id is empty |
| `Pricing.FindFood` | Controller/Controller.js:123 | the food found has exactly the line's id; nothing is found exactly when no food has that id; an absent id matches nothing |
| `Pricing.FindFoodFirst` | Controller/Controller.js:123 | when several foods have the id, the first of them is found |
| `Pricing.UnitPrice` | Controller/Controller.js:123-124 | the price of the first food with the line's id, 0 when that food has no price, 0 for an unknown id |
| `Pricing.Quantity` | Controller/Controller.js:125 | the pricing quantity is never 0; it is the client's quantity unless that is missing or 0, and then it is 1 (a negative quantity is kept) |
| `Pricing.LineIds` | Controller/Controller.js:119 | `items.map(i => i.id)`: the line ids in cart order |
| `Pricing.QueriedFoods` | Controller/Controller.js:120 | `Food.find({ _id: { $in: ids } })`: exactly the catalog foods whose id is among the line ids |
| `Pricing.QueriedLookup` | Controller/Controller.js:120-123 | for a line id, a lookup among the queried foods finds what a lookup in the whole catalog finds |
| `Pricing.QueriedTotal` | Controller/Controller.js:119-125 | pricing the cart against the queried foods gives the same total as pricing it against the whole catalog |
| `Pricing.PriceCart` | Controller/Controller.js:119-127 | the loop's total is the sum over the cart of catalog price times quantity; it builds exactly one stored item per line, in cart order, each with the line's own id and raw `qty` |
| `Pricing.LineAmount` | Controller/Controller.js:123-125 | a line whose id names no catalog food adds 0 to the total |
| `Pricing.CartTotal` | Controller/Controller.js:121-125 | the sum over the cart of catalog price times quantity; against an empty catalog every cart costs 0 |
| `Pricing.CartTotalAppend` | Controller/Controller.js:121-125 | the total of a concatenated cart is the sum of the two totals |
| `Pricing.ClientPriceIgnored` | Controller/Controller.js:122-125 | two carts with the same ids and quantities line by line have the same total, whatever prices the client put in them |
| `Pricing.KnownLines` | Controller/Controller.js:123 | keeps exactly the cart lines whose id names a catalog food |
| `Pricing.UnknownLinesAddNothing` | Controller/Controller.js:123-125 | dropping the lines with an unknown food id leaves the total unchanged |
| `Pricing.TotalNonNegative` | Controller/Controller.js:124-125 | with no negative price and no negative quantity, the total is not negative |
| `Pricing.NegativeQuantityLowersTotal` | Controller/Controller.js:125 | a line with a positive price and a negative quantity gives a negative total, because the defaulting to 1 keeps the negative quantity |
| `Controller.FindUser` | Controller/Controller.js:15 | `User.findOne({ email })`: the user found has that email; nothing is found exactly when no user has it |
| `Controller.FindUserUnique` | Controller/Controller.js:15-16 | where emails are unique, the lookup by a user's email finds that user |
| `Controller.OrdersOf` | Controller/Controller.js:150 | an order is listed if and only if it is stored with the given id as its user |
| `Controller.OrdersOfCount` | Controller/Controller.js:150 | each order of the given user is listed as many times as it is stored, and no other order is listed |
| `Controller.OrdersOfAppend` | Controller/Controller.js:150 | the listing keeps store order: a newly stored order of the user comes after the earlier ones, and an order of someone else changes nothing |
| `Controller.FoodsOf` | Controller/Controller.js:89 | a food is listed if and only if it is stored with the given restaurant as its owner |
| `Controller.FoodsOfCount` | Controller/Controller.js:89 | each food of the given restaurant is listed as many times as it is stored, and no other food is listed |
| `Controller.FoodsOfAppend` | Controller/Controller.js:89 | the menu keeps store order: a newly stored food of the restaurant comes after the earlier ones, and a food of another restaurant changes nothing |
| `Controller.SeedRestaurants` | Controller/Controller.js:72-73 | the seed creates two restaurants with distinct ids, each with a name and a description |
| `Controller.SeedFoods` | Controller/Controller.js:74-76 | the seed creates three foods with distinct ids, each with a name and a positive price, each owned by one of the two seeded restaurants |
| `Controller.SeedMenus` | Controller/Controller.js:72-76 | the seed has 2 restaurants and 3 foods: the first two foods belong to the first restaurant and the third to the second |
| `Controller.Db.Signup` | Controller/Controller.js:11-21 | a missing field gives 400 "Missing fields" and a registered email gives 400 "Email already registered", both leaving the store unchanged; otherwise it appends exactly one user, whose password is the hash of the input, and returns the user's id and token; email uniqueness is kept |
| `Controller.Db.Login` | Controller/Controller.js:52-60 | an unknown email and a wrong password give the same 401 "Invalid credentials"; it succeeds exactly when the user with that email has a password that matches, and then it returns that user's token |
| `Controller.Db.LoginWithHashedPassword` | Controller/Controller.js:55-59 | logging in with the password whose hash a stored user holds returns that user's token |
| `Controller.Db.AddRestaurant` | Controller/Controller.js:40-45 | a missing name gives 400 "Missing name" and creates nothing; otherwise it appends exactly the new restaurant and returns it |
| `Controller.Db.AddFood` | Controller/Controller.js:28-33 | a missing restaurant id or name gives 400 "Missing fields" and creates nothing; otherwise it appends exactly the new food and returns it |
| `Controller.Db.GetRestaurants` | Controller/Controller.js:67-79 | on an empty restaurant store it creates exactly the two sample restaurants and three foods and returns the two restaurants; otherwise it returns the stored list and writes nothing |
| `Controller.Db.GetRestaurantMenu` | Controller/Controller.js:86-90 | exactly the stored foods of the given restaurant, each as many times as it is stored |
| `Controller.Db.PlaceOrder` | Controller/Controller.js:111-130 | an empty cart gives 400 "No items" and adds no order; otherwise it appends exactly one order and returns its id; the order's user is the optional identity, its total is the catalog-priced cart total, its items are the lines' ids and raw quantities in cart order, and its status is "Placed" |
| `Controller.Db.GetMyOrders` | Controller/Controller.js:137-151 | fails with the 401 of the required header check; succeeds exactly when the optional check identifies someone, and then returns exactly the stored orders of that identity's id, each as many times as it is stored |
| `Scenarios.ListTwice` | Controller/Controller.js:67-79 | on a fresh store, listing twice returns the same two restaurants; the store then holds 3 foods, two on the first menu and one on the second |
| `Scenarios.SeededDishPrice` | Controller/Controller.js:74 | a line for the first seeded dish is priced at 250 per portion, whatever price the client sends |
| `Scenarios.SignupThenLogin` | Controller/Controller.js:11-60 | signup succeeds and a second signup with the same email is refused; login with the same credentials returns a token that verifies to the new user's id, email and name |
| `Scenarios.OrderThenHistory` | Controller/Controller.js:28-151 | after a restaurant and a food on its menu are added and a user signs up and logs in, the login's token identifies the new user, and an order placed under it shows up, with its catalog total, in that user's order history; without a header the history is 401 "Missing auth" |

## Left out

- Express routing, CORS, JSON body parsing, the database connection and process start-up are framework and I/O wiring with no logic of their own.
- The bcrypt and JSON Web Token internals are library code. This covers salting, the cost factor, the signing secret with its fallback and the 7-day expiry. They are the abstract `Crypto` functions, and verification is an oracle that returns optional claims.
- Every 500 "Server error" path (store failures, exceptions caught at the handler boundary) and the error logging are left out.
- The store casts ids to database ids, and so can throw. A line id, a restaurant id, or a token id that is not a well-formed id makes the store throw, and the handler answers 500. The model compares id texts: an ill-formed line id just matches no food.
- The store's cast also accepts upper-case hexadecimal digits and normalises them, so an id written in upper case names the same document as its lower-case form. The model compares id texts, so such an id is a different id: `Controller.FoodsOf` and `Controller.Db.GetRestaurantMenu` list no food for the upper-case form of a restaurant id, `Controller.Db.AddFood` stores the restaurant id as written, and `Controller.Db.PlaceOrder` stores each order item's food id as written. The ids the model creates itself are already lower-case (`Records.IdText`), so the difference only concerns ids a client writes in upper case. Pricing is not affected, since the code compares id texts there too.
- A body field that is present but not a string (a number, an object) is left out. So is a login request with a missing email or password, where the store and bcrypt libraries decide what happens.
- Claims without an `id` are left out. Verification returns claims whose `id` is a string.
- `populate('items.food')` in the order history is a library join. The model returns orders with food ids, not expanded foods.
- `async`/`await` suspension and the race between looking up prices and inserting the order are left out. Each handler runs as one atomic step.
- Auth.CreateToken: the model's token depends only on the claims. The token library also writes the issue time, and an expiry computed from it, into every token it signs, so two tokens for the same user (the one signup returns and the one a later login returns, say) differ. The equalities of `Controller.Db.Login` and `Controller.Db.LoginWithHashedPassword` with `CreateToken` hold in the model only; what a token verifies to is what the program promises.
- `bcrypt.hash` is a function in the model, so the same password always gets the same hash. Real salted hashes differ from call to call.
- JavaScript numbers are modelled as integers: no fractional prices, no `NaN`, no floating-point rounding.
- The model lists documents in insertion order. The store promises no order for an unsorted `find`, so `Controller.OrdersOfAppend` and `Controller.FoodsOfAppend` describe the model's order, not one the program guarantees.
