# Restaurant site: cart, pricing and form logic in Dafny

The restaurant site is a single-page web app for browsing a menu, booking a
table or a private event, sending an enquiry, signing in, filling a cart and
paying for it. Almost every screen is a form bound to remote calls. This
project models the parts that decide something, as pure Dafny functions over
immutable data:

- **The cart store** (`CartStore`). The cart is an ordered sequence of lines
  with distinct item ids and positive quantities. The store adds an item,
  merging it with an existing line; removes an id; sets a quantity, where zero
  or less removes the line; and clears the cart. It also derives the total
  (price times quantity, summed) and the item count (the sum of the
  quantities).
- **Pricing** (`Pricing`). The cart and checkout pages show a subtotal, 8% tax
  and a total. A placed order stores the same figures, computed slightly
  differently.
- **The cart page** (`CartPage`). It has the quantity buttons of each line and
  the checkout button. A signed-out visitor is sent to log in and is then
  brought back to checkout.
- **Checkout** (`CheckoutPage`). This covers who may stay on the page, the
  payment form and its validation, and the order record written on payment.
- **The menu** (`MenuData`, `MenuPage`).
  - `MenuData` holds the catalogue of five categories and thirty items, and its
    queries: items by category, popular items and the text search.
  - `MenuPage` decides which items a tab lists, and applies the popular-only
    switch and the search box.
  - It also resolves a `category` URL parameter by id or by name in any letter
    case, handles a tab change, and picks a dietary tag's badge colour.
- **The other forms** (`BookingPage`, `PrivateEventPage`, `ContactPage`,
  `AccountPage`, `LoginPage`). For each form the model has its record and its
  change handler. The handler stores the value and hides that field's message.
  Each form also has its `validateForm`, with every message and every
  condition of the page. The remaining pieces:
  - the booking page's time slots and guest choices;
  - the account page's order-status badge;
  - the login page's error messages and the page it returns to after sign-in.

Four shared modules hold what the pages use from JavaScript and from each other:

- `JsStrings`:
  - `trim`, with ECMAScript white space;
  - ASCII `toLowerCase`/`toUpperCase`;
  - `includes`;
  - the `<` order on strings;
  - `Number(string)` for decimal text, with an optional exponent.
- `Patterns`: the email regex `\S+@\S+\.\S+` and the phone regexes
  `^\+?[\d\s]{10,}$` and `^\+?[\d\s\-\(\)]{10,}$`. The email regex is defined
  as a match over positions and proved equal to an executable check. The two
  phone regexes are one executable predicate, with a flag for the punctuation
  the second one allows.
- `Forms`: the shared parts of the form pages.
  - the error object, a map from field to message, where a blank message shows
    nothing;
  - `CollectErrors`, which builds the error object in the order of the checks;
  - the two "clear the message on edit" rules.
- `Checks`: the field checks several pages repeat, each with the page's own
  message passed in. These are a required value, with or without trimming,
  and a required email in the two forms the pages use.

Values that come from outside become parameters:

- today's date, for the booking date check;
- whether the visitor is signed in, and the user id;
- the receipt id and the order date;
- the URL the login page was opened at;
- the error code the sign-in service returns.

Money is exact `real` arithmetic.

Two points where the design document and the code differ; the model follows the
code:

- The tax rate is the constant 0.08 in the pages, not a configuration input.
- The stored order carries the receipt id, the user id, the payment form, the
  order date and a `pending` status. It does not carry a reference code and a
  timestamp.

## Model

| member | source | states |
|---|---|---|
| CartStore.AddToCart | src/context/CartContext.jsx:9-21 | An id not yet in the cart is appended as a new line of quantity 1 after the unchanged cart. For an id already present, every line keeps its item and only the lines with that id gain one. Distinct ids and positive quantities are preserved, and the id is in the result. |
| CartStore.RemoveFromCart | src/context/CartContext.jsx:23-26 | No line with the id remains. Every remaining line was in the cart, and every line with another id is kept. The cart invariant is preserved. |
| CartStore.UpdateQuantity | src/context/CartContext.jsx:28-37 | A quantity of zero or less is exactly removal. Otherwise the cart keeps its length and its items, the id's lines get exactly that quantity and every other line keeps its own. The invariant is preserved. |
| CartStore.ClearCart | src/context/CartContext.jsx:39-42 | The cleared cart is valid, totals 0 and counts 0 items. |
| CartStore.AddExistingIsReplace | src/context/CartContext.jsx:10-16 | In a valid cart, adding an item already there changes exactly that one line, raising its quantity by one. |
| CartStore.UpdateExistingIsReplace | src/context/CartContext.jsx:32-34 | In a valid cart, setting a positive quantity changes exactly the id's one line. |
| CartStore.RemoveExistingIsDrop | src/context/CartContext.jsx:23-26 | In a valid cart, removing the id of line k gives the cart without line k, the rest in order. |
| CartStore.AddTwiceMerges | src/context/CartContext.jsx:9-21 | Adding an absent item twice leaves one line for it, with quantity 2 and placed last; all other lines are unchanged. |
| CartStore.RemoveIdempotent | src/context/CartContext.jsx:23-26 | Removing the same id a second time changes nothing. |
| CartStore.RemoveAbsent | src/context/CartContext.jsx:23-26 | Removing an id the cart does not hold leaves it unchanged. |
| CartStore.RemoveKeepsOrder | src/context/CartContext.jsx:24 | Removal distributes over concatenation, so the surviving lines keep their relative order. |
| CartStore.UpdateAbsent | src/context/CartContext.jsx:28-37 | Setting any quantity for an absent id leaves the cart unchanged. |
| CartStore.FilterKeepsValid | src/context/CartContext.jsx:24 | Keeping any subset of the lines of a valid cart gives a valid cart. |
| CartStore.SumsOfConcat | src/context/CartContext.jsx:49-55 | The total and the item count of two carts joined together are the sums of their parts. |
| CartStore.SumsOfReplace | src/context/CartContext.jsx:49-55 | Replacing one line changes the total by the difference of the line amounts, and the count by the difference of the quantities. |
| CartStore.SumsOfDrop | src/context/CartContext.jsx:49-55 | Dropping one line lowers the total by its amount and the count by its quantity. |
| CartStore.AmountOfQuantity | src/context/CartContext.jsx:50 | Changing a line's quantity changes its amount by the unit price times the difference. |
| CartStore.AddToCartSums | src/context/CartContext.jsx:9-21 | Adding to a valid cart raises the count by exactly one. It raises the total by the unit price of the line that grew: the cart's own line for a known id, the new item otherwise. |
| CartStore.RemoveFromCartSums | src/context/CartContext.jsx:23-26 | Removing line k's id lowers the count by its quantity and the total by its amount. |
| CartStore.UpdateQuantitySums | src/context/CartContext.jsx:28-37 | Setting line k to a positive quantity moves the count and the total by the change in that line alone. |
| CartStore.TotalNonNegative | src/context/CartContext.jsx:49-55 | With non-negative prices and positive quantities, the total is non-negative and the count is at least the number of lines. |
| CartStore.CartTotal | src/context/CartContext.jsx:49-51 | The total is the sum of price times quantity over the lines, left to right. Its behaviour under each store operation is stated by the `Sums` lemmas above. |
| CartStore.CartCount | src/context/CartContext.jsx:53-55 | The count is the sum of the quantities, not the number of lines. Its behaviour under each store operation is stated by the `Sums` lemmas above. |
| Pricing.DisplayedSummary | src/pages/Cart.jsx:51-53 | The subtotal is the cart total. The tax is 8/100 of it. The total is subtotal plus tax. |
| Pricing.StoredAmounts | src/pages/Checkout.jsx:143-145 | The order stores the cart total, 8% of it, and 108% of it. |
| Pricing.StoredMatchesDisplayed | src/pages/Checkout.jsx:143-145 | The three stored amounts equal the three displayed ones. |
| Pricing.SummaryBounds | src/pages/Cart.jsx:51-53 | For catalogue carts, tax is never negative and the total is at least the subtotal. The empty cart shows 0, 0, 0. |
| Pricing.BuildAndPriceScenario | src/context/CartContext.jsx:9-55 | Adding item 1 (12.99) twice and item 2 (5.00) once gives two lines and 3 items. The summary is 30.98, 2.4784 and 33.4584. Zeroing item 2 leaves 2 items. |
| CartPage.HandleQuantityChange | src/pages/Cart.jsx:26-32 | Zero or less leaves no line with the id; otherwise the number of lines stays the same. The cart invariant is preserved. |
| CartPage.HandleQuantityChangeIsUpdate | src/pages/Cart.jsx:26-32 | The page's own zero test agrees with the store's, so the handler equals `updateQuantity`. |
| CartPage.PressMinus | src/pages/Cart.jsx:170 | On a valid cart, minus on a line of quantity 1 drops exactly that line, and on a larger quantity lowers it by one. The count falls by one and validity is kept. |
| CartPage.PressPlus | src/pages/Cart.jsx:181 | On a valid cart, plus raises exactly that line by one, the count by one and the total by its unit price. |
| CartPage.PlusThenMinusRestores | src/pages/Cart.jsx:170-181 | Plus followed by minus on the same line gives back the original cart. |
| CartPage.CheckoutTarget | src/pages/Cart.jsx:42-49 | A signed-in visitor goes to checkout. Anyone else goes to log in and come back to checkout. |
| CheckoutPage.Redirect | src/pages/Checkout.jsx:46-54 | The page stays exactly when the visitor is signed in and the cart is non-empty. A signed-out visitor is sent to the login detour, and a signed-in one with an empty cart to the cart. |
| CheckoutPage.CartButtonAgreesWithRedirect | src/pages/Checkout.jsx:46-54 | For a non-empty cart, checkout keeps exactly the visitors the cart button sends there. Both send a signed-out visitor to the same login detour. |
| CheckoutPage.HandleInputChange | src/pages/Checkout.jsx:68-73 | The edited field takes the value and the others keep theirs. The error keys are unchanged, and exactly the edited field's message stops showing. |
| CheckoutPage.ReferenceCodeError | src/pages/Checkout.jsx:78-82 | The reference code passes iff it is not blank and has at least 6 characters counted untrimmed. A blank code gets the required message; a short one gets the length message. |
| CheckoutPage.PhoneError | src/pages/Checkout.jsx:94-98 | The phone passes iff it is not blank and matches `^\+?[\d\s]{10,}$`. Each failure has its own message. |
| CheckoutPage.ValidateForm | src/pages/Checkout.jsx:75-102 | A field is in the error object iff its check fails, and it carries that check's message. The form is valid iff no check fails, iff the object is empty. |
| CheckoutPage.AcceptedPaymentData | src/pages/Checkout.jsx:75-102 | An accepted form has a non-blank reference code of 6+ characters, a non-blank name and a well-formed email. Its phone of 10+ characters also passes the more lenient phone class. |
| CheckoutPage.PassingChecks | src/pages/Checkout.jsx:75-102 | The same field guarantees, drawn from the four field checks passing. |
| CheckoutPage.PunctuatedPhoneRejected | src/pages/Checkout.jsx:96-98 | A phone containing '-', '(' or ')' is always rejected here. |
| CheckoutPage.NewOrder | src/pages/Checkout.jsx:139-149 | The order holds the cart and the payment form with status "pending". The user id is "guest" iff there is no uid, an empty one or the uid "guest"; otherwise it is the uid. The amounts equal the displayed summary. |
| MenuData.GetEventTypes | src/data/menuData.js:360-375 | The event types are eight, ending with "Other". |
| MenuData.GetMenuPackages | src/data/menuData.js:335-379 | There are three packages: silver, gold and platinum, in that order. |
| Seqs.ValueFor | src/data/menuData.js:384-386 | The lookup with a fallback value: a key with no entry gives the default, and a key with an entry gives a value paired with it. |
| Seqs.ValueForFirst | src/data/menuData.js:384-386 | The value found is the one under the first entry with the key. |
| MenuData.GetItemsByCategory | src/data/menuData.js:384-386 | A category key gives exactly its list, and anything else gives nothing. |
| MenuData.GetPopularItems | src/data/menuData.js:388-391 | Every result is a catalogue item flagged popular, and every popular catalogue item is in the result. Ids strictly increase along the result, so it keeps catalogue order and repeats nothing. |
| MenuData.SearchItems | src/data/menuData.js:393-399 | Every result is a catalogue item whose lower-cased name or description contains the lower-cased query, and every such item is in the result. Ids strictly increase along the result, so it keeps catalogue order and repeats nothing. |
| MenuTypes.FilterKeepsIdOrder | src/data/menuData.js:388-391 | Filtering a list whose ids strictly increase gives a list whose ids strictly increase. |
| MenuData.CatalogueIdsIncrease | src/data/menuData.js:389 | Ids strictly increase along the flattened catalogue. |
| MenuData.CategoryItemsInOrder | src/data/menuData.js:384-386 | Ids strictly increase along any category's list. |
| MenuData.KeysAreDistinct | src/data/menuData.js:51-331 | The five category lists have distinct keys. |
| MenuData.AllItemsByCategory | src/data/menuData.js:389 | The flattened catalogue is breakfast, lunch, coffee, tea and beers, back to back. |
| MenuData.ListIds | src/data/menuData.js:51-331 | Each category holds six items, and their ids count on from where the previous category stopped. |
| MenuData.ItemIdsRunOneToThirty | src/data/menuData.js:51-331 | There are 30 items, their ids run 1 to 30 in catalogue order, and so no two share an id. |
| MenuData.CategoriesMatchItemLists | src/data/menuData.js:13-49 | The category tabs and the item lists name the same keys in the same order. |
| MenuData.ItemsByCategoryLookup | src/data/menuData.js:384-386 | "breakfast" and "beers" give their lists, and a key naming no category gives nothing. |
| MenuData.EmptySearchListsEverything | src/data/menuData.js:393-399 | The empty query matches every item, so the search returns the whole catalogue. |
| MenuData.PricesArePositive | src/data/menuData.js:51-331 | Every catalogue price is positive. |
| MenuPage.FilteredItems | src/pages/Menu.jsx:68-88 | A non-empty query gives exactly the search result. With the switch off it gives the tab's items. With it on, it gives exactly the tab's popular items. Ids strictly increase along whatever it shows. |
| MenuPage.AllTabItems | src/pages/Menu.jsx:71-72 | Each tab's items, tab after tab. `AllTabIsCatalogue` shows this is the whole catalogue. |
| MenuPage.TabItems | src/pages/Menu.jsx:71-77 | The "all" tab, the popular items, or the category's own items. `TabItemsInOrder` and `PopularOnlyOverAllIsPopularTab` relate them to the catalogue. |
| MenuPage.TabItemsInOrder | src/pages/Menu.jsx:71-77 | Ids strictly increase along every tab's list. |
| MenuPage.AllTabIsCatalogue | src/pages/Menu.jsx:71-72 | The "all" tab lists the whole catalogue in category order. |
| MenuPage.PopularOnlyOverAllIsPopularTab | src/pages/Menu.jsx:71-81 | The "all" tab with the switch on shows exactly the popular items. |
| MenuPage.PopularOnlyOverPopularTab | src/pages/Menu.jsx:73-81 | On the popular tab, the switch filters nothing out. |
| MenuPage.FindCategory | src/pages/Menu.jsx:34-36 | A found tab is in the list and matches by id or by lower-cased name. Nothing is found iff no tab matches. When some tab matches, the first one that does is found. |
| MenuPage.ResolveCategoryParam | src/pages/Menu.jsx:31-41 | A missing or empty parameter keeps the selection. A non-empty parameter equal to a tab's id, or to its name in any letter case, selects that tab. A changed selection is a tab matching the parameter, and an unknown parameter keeps the selection. |
| MenuPage.MatchingTabFound | src/pages/Menu.jsx:34-36 | For the real tabs, any tab the parameter matches is the one found. |
| MenuPage.NamesLowerToIds | src/data/menuData.js:13-49 | Each tab's name, lower-cased, is its id. |
| MenuPage.CategoryIdSelectsItself | src/pages/Menu.jsx:31-41 | Every tab id given as the parameter selects that tab. |
| MenuPage.FindByAnyCase | src/pages/Menu.jsx:34-36 | In a list with distinct ids equal to the lower-cased names, a parameter that lower-cases to a tab's id finds that tab, whatever its letter case. |
| MenuPage.FoundTabSelected | src/pages/Menu.jsx:33-38 | A non-empty parameter that finds a tab selects that tab's id. |
| MenuPage.CategoryNameInCapitals | src/pages/Menu.jsx:34-36 | The parameter "COFFEE" selects the coffee tab. |
| MenuPage.HandleCategoryChange | src/pages/Menu.jsx:60-67 | The tab becomes selected. The URL parameters are empty iff the tab is "all"; otherwise they are exactly `category` set to the tab. |
| MenuPage.DietaryBadgeColor | src/pages/Menu.jsx:92-103 | A tag outside the colour table gets grey; a tag in it gets the colour the table pairs with it. |
| MenuPage.DietaryColorsIdentifyTags | src/pages/Menu.jsx:93-101 | The seven tags are distinct, their colours are distinct, and none of them is the grey fallback, so a badge's colour tells which known tag it shows. |
| BookingPage.TimeSlotsAreHalfHours | src/pages/Booking.jsx:45-49 | There are 22 slots. Slot i is the half hour i after 11:00, and the slots are strictly increasing in string order. |
| BookingPage.GuestOptions | src/pages/Booking.jsx:52 | There are twelve choices, each between 1 and 12, strictly increasing. |
| BookingPage.HandleChange | src/pages/Booking.jsx:74-100 | Both change handlers store the value in the named field and leave the others. The error keys are kept, and only that field's message is hidden. |
| BookingPage.DateError | src/pages/Booking.jsx:104-110 | The date passes iff it is given and does not sort before today. An empty date and a past date each get their message. |
| Checks.RequireEmail | src/pages/Booking.jsx:124-128 | An email passes iff it is non-empty (not trimmed) and matches the email regex. An empty one gets the "required" message and a malformed one the "invalid" message. The booking, private-event, account and login pages use this check. |
| BookingPage.PhoneError | src/pages/Booking.jsx:130-134 | The phone passes iff it is non-empty and matches `^\+?[\d\s\-\(\)]{10,}$`. Each failure gets its message. |
| BookingPage.ValidateForm | src/pages/Booking.jsx:102-138 | A field is in the error object iff its check fails, with that check's message. The form is valid iff no check fails, iff the object is empty. |
| BookingPage.TodayIsNotPast | src/pages/Booking.jsx:104-110 | A booking for today raises no date error. |
| BookingPage.LaterDateIsNotPast | src/pages/Booking.jsx:104-110 | A date sorting after today raises no date error. |
| BookingPage.BlankEmailIsInvalidNotMissing | src/pages/Booking.jsx:124-128 | An email of spaces only is reported as invalid, not as missing. |
| PrivateEventPage.HandleInputChange | src/pages/PrivateEvent.jsx:61-69 | The field takes the value and the others keep theirs. An entry for the field is always present afterwards, and exactly its message stops showing. |
| PrivateEventPage.GuestCountError | src/pages/PrivateEvent.jsx:113-119 | The guest count passes iff it is non-empty and `Number` of it is NaN or at least 10. Each failure gets its message. |
| PrivateEventPage.ValidateForm | src/pages/PrivateEvent.jsx:71-137 | The error object always has the nine checked fields, each with its message or "". The form is valid iff no check fails, iff every entry is "". The budget entry follows the menu package. |
| PrivateEventPage.ValidateFormCorrected | src/pages/PrivateEvent.jsx:71-137 | The same, with the budget entry shown iff the budget is empty. |
| PrivateEventPage.BudgetNeverInspected | src/pages/PrivateEvent.jsx:130-133 | Changing only the budget never changes the page's validation. |
| PrivateEventPage.EmptyBudgetAccepted | src/pages/PrivateEvent.jsx:130-133 | A complete form with an empty budget is accepted as written. The corrected validation rejects it with "Budget is required". |
| PrivateEventPage.CorrectedAgreesWhenBudgetGiven | src/pages/PrivateEvent.jsx:126-133 | With a budget and a package filled in, both validations agree. |
| PrivateEventPage.SmallPartyRejected | src/pages/PrivateEvent.jsx:113-119 | A guest count of digits below 10 gets "Minimum number of guests is 10" and the form fails. |
| PrivateEventPage.ExponentCountRejected | src/pages/PrivateEvent.jsx:113-119 | A count in exponent form denoting fewer than ten guests is rejected. |
| PrivateEventPage.FiveInExponentFormRejected | src/pages/PrivateEvent.jsx:113-119 | "5e0" is read as five guests and rejected. |
| PrivateEventPage.SmallCountRejected | src/pages/PrivateEvent.jsx:113-119 | The guest-count check turns away any digit string whose value is below 10. |
| PrivateEventPage.NonNumericGuestCountPasses | src/pages/PrivateEvent.jsx:116 | Non-numeric guest-count text passes the minimum check. |
| ContactPage.HandleInputChange | src/pages/Contact.jsx:89-102 | The field takes the value and the others keep theirs. The error keys are kept, and exactly that field's message is hidden. |
| Checks.RequireText | src/pages/PrivateEvent.jsx:84-87 | A value passes iff it is non-empty (not trimmed); otherwise it gets the given message. |
| Checks.RequireNonBlank | src/pages/Contact.jsx:107-109 | A value passes iff it is not blank after trimming; otherwise it gets the given message. |
| Checks.RequireNonBlankEmail | src/pages/Contact.jsx:111-115 | An email passes iff it is not blank after trimming and matches the email regex. A blank one gets the "required" message and a malformed one the "invalid" message. The checkout page uses the same check. |
| Checks.BlankEmailMessages | src/pages/Contact.jsx:111-115 | A non-empty email of white space only is reported as missing by the trimming check, but as badly formed by the check that only looks for emptiness. |
| ContactPage.MessageError | src/pages/Contact.jsx:121-125 | The message passes iff it is not blank and has 10+ characters counted untrimmed. Each failure gets its message. |
| ContactPage.ValidateForm | src/pages/Contact.jsx:104-129 | A field is in the error object iff its check fails, with that check's message. The form is valid iff the object is empty. |
| ContactPage.AcceptedEnquiry | src/pages/Contact.jsx:104-129 | An accepted enquiry has a name, a subject, a well-formed email and a non-blank message of 10+ characters. |
| ContactPage.PassingChecks | src/pages/Contact.jsx:104-129 | The same field guarantees, drawn from the four field checks passing. |
| ContactPage.PaddedMessagePasses | src/pages/Contact.jsx:121-125 | "Hi" padded with spaces to ten characters passes the length rule. |
| ContactPage.PhoneAndTypeIgnored | src/pages/Contact.jsx:104-129 | The phone and the enquiry type never affect validation. |
| ContactPage.ChecksSkipPhoneAndType | src/pages/Contact.jsx:104-129 | No field check reads the phone or the enquiry type. |
| AccountPage.AccessRedirect | src/pages/Account.jsx:40-44 | The page stays iff the visitor is signed in; otherwise it goes to "/login". |
| AccountPage.HandleChange | src/pages/Account.jsx:97-109 | The field takes the value and the others keep theirs. The error keys are kept, and exactly that field's message is hidden. |
| AccountPage.PhoneError | src/pages/Account.jsx:124-126 | The phone passes iff it is empty or matches `^\+?[\d\s\-\(\)]{10,}$`. |
| AccountPage.ValidateForm | src/pages/Account.jsx:111-130 | A field is in the error object iff its check fails, with that check's message. Saving is allowed iff the object is empty. |
| AccountPage.EmptyPhoneAllowed | src/pages/Account.jsx:124-126 | With the phone empty, saving depends only on a non-blank name and a well-formed email. |
| AccountPage.SavedProfile | src/pages/Account.jsx:111-130 | A saved profile has a name, a well-formed email and, if it has a phone, one of 10+ characters. |
| AccountPage.StatusColors | src/pages/Account.jsx:166-174 | Each of the four known coloured statuses gets its colour, and any other status gets grey. |
| AccountPage.StatusBadge | src/pages/Account.jsx:164-187 | There is no badge iff the status is empty. Otherwise the caption is the status with its first letter upper-cased and the same length, in the status's colours. |
| AccountPage.BadgeLabelRoundTrip | src/pages/Account.jsx:175 | Lower-casing the caption's first letter gives back a status that began with a lower-case letter. |
| AccountPage.NewOrderShowsPending | src/pages/Account.jsx:164-178 | Every order placed at checkout shows a yellow "Pending" badge. |
| AccountPage.UnknownStatusLooksDelivered | src/pages/Account.jsx:166-174 | An unknown status is coloured like a delivered order. |
| LoginPage.SearchOf | src/pages/Login.jsx:31 | The query is taken from the path before its fragment. It is empty iff that part has no '?' before its last character. Otherwise it starts at the first '?', has at least one character after it and holds no '#'. |
| LoginPage.BeforeFragment | src/pages/Login.jsx:31 | The part of the path before its first '#': a prefix with no '#', followed in the path by '#' when shorter. |
| LoginPage.FragmentIgnored | src/pages/Login.jsx:31 | Adding a fragment to a path without one leaves its query unchanged. |
| LoginPage.SearchOfQuery | src/pages/Login.jsx:31 | For a path without '?' or '#', the query of the path followed by a query of two or more characters with no '#' is that query. |
| LoginPage.SinglePairRoundTrip | src/pages/Login.jsx:31 | Looking up a name in a one-pair query `?name=value` gives back the value. |
| LoginPage.QueryParam | src/pages/Login.jsx:31 | A value found holds no '&'. The first-pair lemmas below state which value is found. |
| LoginPage.Lookup | src/pages/Login.jsx:31 | A value found holds no '&'. The first-pair lemmas below state which value is found. |
| LoginPage.FirstPairWins | src/pages/Login.jsx:31 | In `name=value&rest`, looking up the name gives that value whatever the rest holds. |
| LoginPage.OtherPairSkipped | src/pages/Login.jsx:31 | A leading pair with another name is passed over: the lookup continues in the rest. |
| LoginPage.EmptyPairSkipped | src/pages/Login.jsx:31 | An empty pair is passed over. |
| LoginPage.RedirectTarget | src/pages/Login.jsx:31-32 | The target is never empty. It is the redirect when one is given and non-empty, and "/" otherwise. |
| LoginPage.RedirectQueryReturns | src/pages/Login.jsx:103-104 | Signing in from `path?redirect=target` lands on the target, for a path and a target without '#'. |
| LoginPage.AfterLogin | src/pages/Login.jsx:103-104 | Where a signed-in visitor goes: the `redirect` parameter of the path's query, or "/". `RedirectQueryReturns` and `PlainLoginGoesHome` state both cases. |
| LoginPage.FragmentAfterTargetDropped | src/pages/Login.jsx:103-104 | Signing in from `path?redirect=target#fragment` lands on the target without the fragment. |
| LoginPage.CheckoutDetourReturns | src/pages/Login.jsx:103-104 | A visitor the cart sent to log in lands on "/checkout" after signing in. |
| LoginPage.PlainLoginGoesHome | src/pages/Login.jsx:31-32 | Opened as plain "/login", the page sends the visitor home. |
| LoginPage.HandleChange | src/pages/Login.jsx:36-50 | The field takes the value and the others keep theirs. The error keys are kept, only that field's message is hidden, and the sign-in failure message is cleared. |
| LoginPage.PasswordError | src/pages/Login.jsx:61-65 | The password passes iff it has 6+ characters. An empty one and a short one each get their message. |
| LoginPage.ValidateForm | src/pages/Login.jsx:52-69 | A field is in the error object iff its check fails, with that check's message. Sign-in is attempted iff the object is empty. |
| LoginPage.SignInAttempted | src/pages/Login.jsx:52-69 | Sign-in is attempted iff the email is well-formed and the password has 6+ characters. |
| LoginPage.ChecksAreIndependent | src/pages/Login.jsx:52-69 | Changing the password never changes the email's entry. |
| LoginPage.LoginErrorMessage | src/pages/Login.jsx:108-114 | Each of the two known codes gets its own message. Every other code gets the "wrong email or password" message, and no other input does. |
| Forms.Record | src/pages/Checkout.jsx:78-82 | A failing check adds its field with its message. A passing one leaves the error object as it was. |
| Forms.CollectErrors | src/pages/Checkout.jsx:75-101 | Every stored field was checked and failed, with that check's message, and every checked failing field is stored. |
| Forms.ClearIfSet | src/pages/Checkout.jsx:70-72 | The keys are unchanged, the field's entry becomes "" if present, and the others are kept. |
| Forms.Clear | src/pages/PrivateEvent.jsx:68 | The field gets an entry "" whether or not it had one, and the others are kept. |
| JsStrings.Trim | src/pages/Contact.jsx:107 | The result is a slice `s[lo..hi]` of the input with only white space before `lo` and after `hi`, and with no white space at either end. It is empty iff the input is all white space. |
| JsStrings.LexLessIrreflexive | src/pages/Booking.jsx:108 | No string sorts before itself. |
| JsStrings.LexLessTrichotomy | src/pages/Booking.jsx:108 | Of two different strings, exactly one sorts before the other. |
| JsStrings.DigitStringToNumber | src/pages/PrivateEvent.jsx:116 | A string of digits converts to the number it spells. |
| JsStrings.BlankStringToNumber | src/pages/PrivateEvent.jsx:116 | White space alone converts to 0, not NaN. |
| JsStrings.ExponentToNumber | src/pages/PrivateEvent.jsx:116 | Digits, 'e' and digits convert to the first number times ten to the power of the second. |
| JsStrings.StringToNumber | src/pages/PrivateEvent.jsx:116 | Trims the text and reads an optional sign, a decimal mantissa and an optional exponent; blank text is 0, anything else NaN. The lemmas above state its values. |
| JsStrings.LexLess | src/pages/Booking.jsx:108 | Lexicographic order over characters, a proper prefix first. The two lemmas above show it is a strict total order. |
| JsStrings.ToLower | src/data/menuData.js:396-397 | The lower-cased string has the input's length. `LowerChar` maps exactly the ASCII capitals down by 32. |
| Patterns.LooksLikeEmailIsRegexTest | src/pages/Checkout.jsx:90 | The executable email check accepts exactly what `\S+@\S+\.\S+` finds a match in. |
| Patterns.LooksLikeEmail | src/pages/Checkout.jsx:90 | Some '@' and a later '.' split the text into three non-empty runs of non-space characters. `LooksLikeEmailIsRegexTest` ties it to the regex. |
| Patterns.EmailNeedsAt | src/pages/Checkout.jsx:90 | A string without '@' never passes the email test. |
| Patterns.BlankIsNotEmail | src/pages/Booking.jsx:126 | White space alone never passes the email test. |
| Patterns.StrictPhoneIsPunctuatedPhone | src/pages/Checkout.jsx:96 | Every phone the strict class accepts, the punctuated class accepts too. |
| Patterns.StrictPhoneRejectsPunctuation | src/pages/Checkout.jsx:96 | The strict class rejects any dash or parenthesis. |
| Patterns.PhonePlusOnlyInFront | src/pages/Booking.jsx:132 | A '+' anywhere but the front fails either phone pattern. |
| Patterns.PhoneRegexTest | src/pages/Booking.jsx:132 | After an optional leading '+', ten or more characters, all digits or white space, plus dashes and parentheses when punctuation is allowed. The three lemmas above state how the two classes differ. |

## Left out

- The sign-in service, the document database and local storage are not modelled: saving bookings, events, enquiries and orders; loading the account's history; `login`/`logout`. Whatever they return is a parameter.
- Timers are not modelled: the cart page's half-second delay before clearing, the login page's reset five seconds after a failure, and the simulated payment delay. Effects that pre-fill forms from the signed-in user are left out too.
- The `cartTotal` state of the cart store is not modelled. It is refreshed from the previous cart and is never read by the pages; the pages use `getCartTotal`.
- The booking page's `bookingData` URL parameter, which is decoded as JSON and submitted, is not modelled. JSON parsing and URI decoding are out of scope.
- The receipt page, home, about, the navigation bar and the app shell are not modelled: they only present data. The menu's `handleSearchChange` is left out as well; it only stores the query and the URL parameter.
- Account: `handleSave` and `handleCancel` are not modelled; they write to or read from local storage and the signed-in user.
- Images, icons, the contact details list and the enquiry-type choices are left out; they are display data.
- Pricing.DisplayedSummary: amounts are exact reals, so the binary floating-point rounding of the source and the two-decimal `toFixed` display are not modelled.
- Pricing.StoredMatchesDisplayed: the equality holds with exact arithmetic. In floating point, `x * 1.08` and `x + x * 0.08` can differ in the last bit.
- CartStore.CartTotal: sums exact reals rather than IEEE doubles.
- JsStrings.ToLower: maps ASCII letters only. JsStrings.UpperChar also covers ASCII only, so non-ASCII case mapping is not modelled.
- JsStrings.Trim: lengths and indices count characters, not UTF-16 code units, so text outside the Basic Multilingual Plane counts differently.
- JsStrings.LexLess: compares characters, while JavaScript compares UTF-16 code units, so two strings with characters outside the Basic Multilingual Plane can be ordered differently. The pages compare ASCII dates only.
- LoginPage.PasswordError: the six-character minimum counts characters, while `.length` counts UTF-16 code units; a password of three emoji has length 6 in the source and is too short here.
- ContactPage.MessageError: the ten-character minimum counts characters, not UTF-16 code units, as for the password.
- CheckoutPage.ReferenceCodeError: the six-character minimum counts characters, not UTF-16 code units, as for the password.
- JsStrings.StringToNumber: reads decimal text with an optional sign, fraction and exponent, as exact reals. Hexadecimal/binary/octal prefixes and `Infinity` give NaN here, though `Number` reads them; a number input never holds them. Overflow to `Infinity` and underflow to 0 are not modelled.
- MenuData.GetItemsByCategory: gives nothing for keys inherited from `Object.prototype` (such as "constructor", "toString" or "__proto__"), which the source's object lookup would return. The tabs only pass category ids, "all" and "popular".
- LoginPage.QueryParam: does no percent-decoding and does not turn '+' into a space, unlike `URLSearchParams`.
- MenuPage.DietaryBadgeColor: ignores keys inherited from `Object.prototype` (such as "constructor"), which the source's object lookup would return.
- AccountPage.StatusColors: ignores inherited `Object.prototype` keys in the same way, and takes the status to be a string.

## Findings

| source | as written | input that shows it | evidently intended | confidence | as-written member | corrected member |
|---|---|---|---|---|---|---|
| src/pages/PrivateEvent.jsx:130-133 | The "Budget is required" message is set when the menu package is empty. The budget field itself is never read. | Every required field filled (20 guests, package "gold") with the budget "" is accepted. | An empty budget is reported as "Budget is required" and blocks submission. | not executed | PrivateEventPage.EmptyBudgetAccepted | PrivateEventPage.ValidateFormCorrected |
