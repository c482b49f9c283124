# Floor & Design: a verified model of the shop's decision logic

This project models, in Dafny, the logic of the Floor & Design web shop. That logic is a Next.js
application with a document database. The main model is the admin "add product" page. It covers:

- the **folder classifier**, which turns a browser-picked folder into a product name, one principal
  image and an insertion-ordered map from motif name to its colour layers;
- the **upload orchestrator**, which validates the form, checks that the name is free, uploads the
  files one at a time in a fixed order while reporting a percentage, and then creates the product
  from the uploaded URLs.

Beside it are the small decision rules and list updates of the rest of the site:

- the request middleware (redirects and the `__pathname` cookie);
- the server header chooser;
- the like toggle on a user's liked-product list;
- the contact list merge and its ordering;
- the hex-colour import;
- the registration and profile-update handlers;
- the product carousel;
- the favourites page and its guard against double clicks;
- the admin contacts page;
- the two chat components, which append a sent message at once.

Each core source file is one module:

| module | models |
|---|---|
| `ProductFolder` | `handleFilesSelection`: `split('/')`, the extension regex, the motif map |
| `AddProduct` | the page: form state, `toggleCategory`, `handleUploadAndSave` |
| `Auth`, `Middleware` | the token check as callers use it, and `middleware` |
| `HeaderChoice` | `ServerHeaderWrapper` |
| `LikeRoute` | `PUT /api/user/like` |
| `ContactUsers` | `GET /api/contact/users` |
| `ImportColors` | `GET /api/palette-couleurs/import-colors` |
| `Register` | `POST /api/auth/register` |
| `ProfileUpdate` | `PUT /api/user/update` |
| `ProductCarousel` | `ProductGridWithCarousel` |
| `Favourites` | the liked-products page |
| `AdminContacts` | the admin contacts page |
| `Chat`, `AdminConversation`, `ContactDrawer` | the two chat components and the message shape they share |
| `Common`, `Sorting` | JavaScript library behaviour the modules rely on: `trim`, ASCII `toLowerCase`/`toUpperCase`, `includes`, `filter`, and the stable `Array.prototype.sort` |

The form of each module follows the form of its source:

- React components are classes. Their state hooks are fields, and each handler or effect is a method
  that changes those fields.
- Requests, toasts and progress updates are recorded in ghost logs (`calls`, `posts`, `toasts`,
  `progressLog`). This lets the contracts state what was sent and in what order.
- The loops of the source are methods with loop invariants. Each is proved equal to a recursive
  function, and the properties are lemmas about that function. The classifier is `ClassifyFiles`
  against `Classify`. The uploads are `UploadFiles` against `Plan`/`FirstFailure`. The contact list
  is `ListContacts` against `SortedContacts`. The colour import is `Import` against `ToInsert`.
- Route handlers that are chains of guard clauses are functions. The like route updates a stored
  list in place, so it is a class whose map field is updated.

External effects are parameters:

- The network and the database are replies. These include the name check, the create request, the
  liked list, the conversation load, `findOne`/`User.findById`, and whether an insert or POST
  succeeds.
- The media host is a map from each upload call `(file, public id, folder)` to the URL it returns.
  A call missing from the map is an upload that throws.
- Token verification is a function `verify` that yields the payload or `None`.
- bcrypt is a function `hash`.
- The clock is a parameter `now`, and the viewport width is `innerWidth`.

Two details of the code that a reader might expect to be otherwise:

- **Upload folders.** The files go to `produits/{name}` and its motif sub-folders, with the French
  folder name; there is no `products/…` path.
- **Progress at 100.** One might expect the percentage to read 100 only once every file is up. The
  code's `Math.round(uploaded / totalFiles * 100)` already reads 100 one file early when there are
  200 files or more. `AddProduct.ProgressFull` states the exact condition (`200k >= 199n`). It also
  states that for fewer than 200 files, 100 means all files are up.

## Model

| member | source | states |
|---|---|---|
| `ProductFolder.Split` | app/admin/ajouter-produit/page.js:49 | `split('/')` yields at least one piece, and no piece contains the separator |
| `ProductFolder.JoinSplit` | app/admin/ajouter-produit/page.js:49 | joining the pieces with the separator gives back the path |
| `ProductFolder.SplitJoin` | app/admin/ajouter-produit/page.js:49 | splitting a join of separator-free pieces gives back the pieces |
| `ProductFolder.TailLen` | app/admin/ajouter-produit/page.js:56 | the length of the run after the last `.` or `/`: no dot or slash in it, and one right before it when it is not the whole name |
| `ProductFolder.StripExtension` | app/admin/ajouter-produit/page.js:56 | `replace(/\.[^/.]+$/, '')`: cuts at the final dot exactly when a non-empty, dot-free and slash-free extension follows it, and otherwise leaves the name |
| `ProductFolder.StripExtensionExamples` | app/admin/ajouter-produit/page.js:56 | `rouge.png`→`rouge`, `v.2.jpg`→`v.2`, `noext`→`noext`, `a.`→`a.`, `.png`→`` |
| `ProductFolder.StripExtensionNoDot` | app/admin/ajouter-produit/page.js:56 | a name without a dot is kept whole |
| `ProductFolder.FindMotif` | app/admin/ajouter-produit/page.js:57 | the position of the first motif with that name, or -1 when there is none |
| `ProductFolder.AddLayer` | app/admin/ajouter-produit/page.js:57-58 | a new motif name is appended to the keys and a known one keeps its place; the layer is appended to that motif's list only |
| `ProductFolder.ClassifyFiles` | app/admin/ajouter-produit/page.js:46-60 | the `forEach` loop computes the classification `Classify` of the file list |
| `ProductFolder.ProductNameIsFirstNonEmpty` | app/admin/ajouter-produit/page.js:48-50 | the product name is the first segment of the first file whose first segment is not empty, and `""` when no file has one |
| `ProductFolder.ProductNameStable` | app/admin/ajouter-produit/page.js:50 | once a name is set, later files never change it |
| `ProductFolder.PrincipalImageIsLastTwoSegmentFile` | app/admin/ajouter-produit/page.js:52-53 | the principal image is the last file with exactly two segments, and none when there is no such file |
| `ProductFolder.MotifLayersInInputOrder` | app/admin/ajouter-produit/page.js:54-58 | each motif's layers are its three-segment files in input order, labelled by the stripped file name |
| `ProductFolder.MotifKeys` | app/admin/ajouter-produit/page.js:57 | the motif names have no duplicates and are exactly the middle segments of the three-segment files |
| `ProductFolder.MotifKeysGrowAtEnd` | app/admin/ajouter-produit/page.js:57 | more files only append motif names, so the key order is first-appearance order |
| `ProductFolder.LayerCountIsThreeSegmentCount` | app/admin/ajouter-produit/page.js:57-58 | the layer lists hold exactly as many entries as there are three-segment files (files with other segment counts are ignored) |
| `AddProduct.LayerCalls` | app/admin/ajouter-produit/page.js:111-112 | one upload per layer, in list order, with the colour label as id into the motif's folder |
| `AddProduct.MotifCalls` | app/admin/ajouter-produit/page.js:108-117 | the motif uploads in key order; there are as many as there are layers |
| `AddProduct.PlanLength` | app/admin/ajouter-produit/page.js:99-103 | the plan has `totalFiles` calls, and the first uploads the principal image with id `imagePrincipale` to `produits/{name}` |
| `AddProduct.PlanAt` | app/admin/ajouter-produit/page.js:108-117 | layer `j` of motif `i` is call number `1 + (layers of earlier motifs) + j`, to `produits/{name}/{motif}` with its label as id |
| `AddProduct.FirstFailure` | app/admin/ajouter-produit/page.js:103-117 | the number of calls before the first upload that throws: all before it succeed, and the one at it fails |
| `AddProduct.OutLayerAt` | app/admin/ajouter-produit/page.js:113 | each layer of the record pairs the colour label with the URL its upload returned |
| `AddProduct.OutMotifAt` | app/admin/ajouter-produit/page.js:126 | each motif of the record keeps the motif's name and holds one entry per layer |
| `AddProduct.RecordMotifAt` | app/admin/ajouter-produit/page.js:107-126 | motif `i` of the record has the structure's motif name and layer count, and each layer's URL is the one returned for that layer's upload |
| `AddProduct.RecordFollowsStructure` | app/admin/ajouter-produit/page.js:120-127 | the record carries the product name and the principal image's URL, has one motif per motif of the structure in the same order, and pairs every layer label with its URL |
| `AddProduct.ProgressValuesAt` | app/admin/ajouter-produit/page.js:105-116 | the `i`-th value shown is the percentage after `i + 1` uploads |
| `AddProduct.ProgressBounds` | app/admin/ajouter-produit/page.js:96-116 | the percentage starts at 0, is 100 after all uploads, and stays between 0 and 100 |
| `AddProduct.ProgressMonotone` | app/admin/ajouter-produit/page.js:105-116 | more uploads never show a smaller percentage |
| `AddProduct.ProgressFull` | app/admin/ajouter-produit/page.js:105-116 | the percentage is 100 exactly when `200k >= 199n`; with fewer than 200 files, exactly when all are uploaded |
| `AddProduct.ProgressValuesMonotone` | app/admin/ajouter-produit/page.js:96-116 | the values shown during a save never decrease, stay within 0..100, and end at 100 when every upload succeeds |
| `AddProduct.UploadLayer` | app/admin/ajouter-produit/page.js:112-116 | one layer: success exactly when its upload is answered; it then logs the call, the new percentage and the record entry, and otherwise logs the failing call |
| `AddProduct.UploadLayers` | app/admin/ajouter-produit/page.js:111-117 | a motif's layers: all succeed exactly when the counter advances by their number, with the layer entries; otherwise it stops right after the first failing call |
| `AddProduct.UploadMotif` | app/admin/ajouter-produit/page.js:108-117 | one motif: the counter reaches the layer total of the motifs so far exactly when it succeeds, and the record's motifs grow by this one |
| `AddProduct.UploadMotifs` | app/admin/ajouter-produit/page.js:107-118 | the motif loop: on success all planned calls went out and the record's motifs are complete; on failure it stops right after the first failing call |
| `AddProduct.UploadFiles` | app/admin/ajouter-produit/page.js:98-118 | the uploads stop at the first failure; the calls sent are the plan up to and including it, and the percentages shown are those of the successful uploads |
| `AddProduct.UploadAndCreate` | app/admin/ajouter-produit/page.js:98-148 | the create request goes out only when every upload succeeded; the toast says which step failed, and the product counts as created only on an ok reply |
| `AddProduct.AddProductPage.constructor` | app/admin/ajouter-produit/page.js:35-40 | the page starts with no structure, empty fields, not loading, at 0 % |
| `AddProduct.AddProductPage.HandleFilesSelection` | app/admin/ajouter-produit/page.js:42-63 | an empty selection leaves the structure; any other replaces it with the classification of the files |
| `AddProduct.AddProductPage.ToggleCategory` | app/admin/ajouter-produit/page.js:65-69 | the selected categories become the toggle of that category |
| `AddProduct.AddProductPage.SaveNewProduct` | app/admin/ajouter-produit/page.js:95-151 | after the name check: loading is set before the uploads, every upload and the create request go out while it is set, and it is clear afterwards; the progress starts at 0; requests, percentages and toast are as above; the form is cleared only when the product was created |
| `AddProduct.AddProductPage.RecordSave` | app/admin/ajouter-produit/page.js:96-148 | called only while loading is set: each request is logged with loading set, the percentages and toast are shown, and the form is cleared exactly when the product was created |
| `AddProduct.AddProductPage.HandleUploadAndSave` | app/admin/ajouter-produit/page.js:71-152 | an incomplete form (the principal image is not checked) makes no request at all; a taken name or a failed check makes only the name check, with no upload or create; the name check goes out before loading is set |
| `AddProduct.CategoryToggleTwice` | app/admin/ajouter-produit/page.js:65-69 | toggling an unselected category twice gives the selection back |
| `Common.Without` | app/api/user/like/route.js:31 | `filter(x => x !== id)` removes every occurrence, keeps all other elements, never grows, and changes nothing when the id is absent |
| `Common.Toggle` | app/admin/ajouter-produit/page.js:67 | after the toggle the element is present exactly when it was absent before, and every other element's presence is unchanged |
| `Common.ToggleKeepsOthersInOrder` | app/admin/ajouter-produit/page.js:67 | apart from the toggled element, the list is the same sequence in the same order |
| `Common.ToggleTwiceRestores` | app/api/user/like/route.js:30-40 | toggling an absent element twice restores the list |
| `Common.ToggleKeepsNoDup` | app/admin/ajouter-produit/page.js:67 | a list without duplicates stays without duplicates; toggling a present element twice moves it to the end |
| `Common.WithoutKeepsNoDup` | app/api/user/like/route.js:31 | removal keeps a list free of duplicates |
| `Common.TrimStart` | app/api/user/update/route.js:21 | strips exactly the leading JavaScript white space |
| `Common.TrimEnd` | app/api/user/update/route.js:21 | strips exactly the trailing JavaScript white space |
| `Common.Trim` | app/api/user/update/route.js:21 | the result is no longer than the input and has no white space at either end |
| `Common.TrimUnchanged` | app/api/user/update/route.js:21 | a string without white space at its ends is its own trim |
| `Common.TrimIdempotent` | app/api/user/update/route.js:21 | trimming twice is trimming once |
| `Common.ToLower` | app/api/user/update/route.js:21 | lowercases each character in place, keeping the length |
| `Common.ToLowerIdempotent` | app/api/user/update/route.js:21 | lowercasing twice is lowercasing once |
| `Common.ToUpper` | app/api/palette-couleurs/import-colors/route.js:26 | uppercases each character in place, keeping the length |
| `Common.ToUpperIdempotent` | app/api/palette-couleurs/import-colors/route.js:26 | uppercasing twice is uppercasing once |
| `Common.ContainsAt` | app/admin/contacts/page.js:40 | `includes` holds exactly when the needle starts at some position of the string |
| `Sorting.SortDesc` | app/api/contact/users/route.js:38 | the sort by descending key returns a permutation of its input in descending key order |
| `Sorting.SortDescStable` | app/api/contact/users/route.js:38 | the sort is stable: rows with an equal key keep their input order |
| `Auth.CurrentUser` | middleware.js:8-16 | a missing or empty token gives no user without calling the verifier; otherwise the user is what verification yields (`None` when it fails) |
| `Middleware.Decide` | middleware.js:18-43 | a request passes exactly when the policy allows it, with the cookie set to the exact path; `/connexion` is the target exactly for visitors without a session on a guarded area, and `/` for every other refusal |
| `Middleware.Handle` | middleware.js:4-44 | a missing token, or one that fails verification, is decided as no user; a passing request records its path |
| `Middleware.GuardsArePrefixTests` | middleware.js:25-33 | any path that starts with `/admin` or `/mon-espace` (such as `/administration`) is redirected exactly as the area itself |
| `Middleware.RolesAreExclusive` | middleware.js:25-33 | an admin is sent to `/` from the personal area, and a user from the admin area |
| `HeaderChoice.RoleOf` | components/ServerHeaderWrapper.js:20 | no user, no role or an empty role gives `guest`; otherwise the role itself |
| `HeaderChoice.Choose` | components/ServerHeaderWrapper.js:9-26 | the admin header exactly when the role is `admin` and the path starts with `/admin`; otherwise the public header with the role. A missing cookie always gives the public header, and no token gives `guest` |
| `HeaderChoice.AdminAreaGetsAdminHeader` | components/ServerHeaderWrapper.js:22-24 | on an admin-area request the middleware let through, the cookie it set makes the header chooser pick the admin header |
| `LikeRoute.UserStore.Put` | app/api/user/like/route.js:7-46 | 401, 500 (unreadable body), 400 and 404 leave every list unchanged; a user document without a `likedProducts` array, or a rejected save, gives 500 and writes nothing; otherwise only the caller's list is toggled, and the message says whether the id was removed or added |
| `LikeRoute.TwoTogglesRestore` | app/api/user/like/route.js:30-40 | two requests for an absent id: first added, then removed, and the list is back as it was |
| `LikeRoute.MissingArrayAlwaysFails` | app/api/user/like/route.js:24-44 | a user whose document has no `likedProducts` array (the user schema declares none) gets 500 for every request with a token and an id, and nothing is written |
| `ContactUsers.ConversationMap` | app/api/contact/users/route.js:19-22 | the map's keys are exactly the conversations' user ids |
| `ContactUsers.ConversationMapValues` | app/api/contact/users/route.js:19-22 | with one conversation per user (the schema's unique `userId`), each user maps to that conversation's date |
| `ContactUsers.WithConversation` | app/api/contact/users/route.js:28-35 | the first block holds only fetched users that have a conversation, each with that conversation's date |
| `ContactUsers.WithoutConversation` | app/api/contact/users/route.js:28-35 | the second block holds only fetched users without a conversation, without a date |
| `ContactUsers.ListContacts` | app/api/contact/users/route.js:13-43 | the handler's loops compute `SortedContacts` |
| `ContactUsers.ResultIsPermutation` | app/api/contact/users/route.js:28-41 | the reply lists every fetched user exactly as often as fetched |
| `ContactUsers.ResultBlocks` | app/api/contact/users/route.js:31-41 | users with a conversation come first, carry its date, are ordered by date descending with ties kept in fetched order; the rest follow in fetched order |
| `ContactUsers.ResultCoversUsers` | app/api/contact/users/route.js:28-35 | every fetched user appears, with its conversation's date exactly when it has one |
| `ImportColors.Import` | app/api/palette-couleurs/import-colors/route.js:8-42 | the handler's loop builds the batch `ToInsert`, and the reply is the one the guards choose |
| `ImportColors.ResponseCases` | app/api/palette-couleurs/import-colors/route.js:16-37 | 400 exactly on a non-object; 200 exactly when nothing is new; 201 with the batch size exactly when the insert runs and succeeds |
| `ImportColors.ToInsertMembers` | app/api/palette-couleurs/import-colors/route.js:22-28 | a colour is in the batch exactly when some entry has that name, a string value matching the pattern, that value uppercased, and a name not in the palette |
| `ImportColors.ToInsertWellFormed` | app/api/palette-couleurs/import-colors/route.js:23-26 | every stored hex still matches the pattern, is upper case, and belongs to a new name |
| `ImportColors.UpperKeepsValidHex` | app/api/palette-couleurs/import-colors/route.js:26 | uppercasing a valid hex keeps it valid |
| `ImportColors.ToInsertAppend` | app/api/palette-couleurs/import-colors/route.js:22-28 | the batch follows entry order |
| `ImportColors.ToInsertNoDup` | app/api/palette-couleurs/import-colors/route.js:22-28 | with distinct entry names (an object's keys), each name is in the batch at most once |
| `Register.Register` | app/api/auth/register/route.js:5-42 | a body that cannot be parsed gives 500; a user is created, with a 200 and the success message, exactly when every check passes and the insert succeeds, and is stored with the lower-cased, trimmed email, the hashed password and the trimmed name; a free email whose name is blank after trimming, or whose insert fails, gives 500 |
| `Register.CheckOrder` | app/api/auth/register/route.js:11-25 | a missing field is reported before a bad format, and a bad format before a taken email; only the uniqueness check queries the database, and it looks up the lower-cased, trimmed email |
| `Register.MixedCaseEmailIsTaken` | app/api/auth/register/route.js:22-25 | signing up as `A@b.c` when `a@b.c` is stored is refused as taken |
| `Register.SignUpBlocksCaseVariants` | app/api/auth/register/route.js:22-35 | after a sign-up succeeds, a sign-up whose email differs from it only in case is refused as taken |
| `Register.EmailMatchesShape` | app/api/auth/register/route.js:16-19 | the regex accepts exactly: no white space, one `@` with text before it, and a dot after the `@` with text on both sides |
| `Register.EmailExamples` | app/api/auth/register/route.js:16-17 | `a@b.c` and `a@b.c.d` are accepted; `a@b@c.d`, `a@bc` and `a b@c.d` are refused |
| `ProfileUpdate.ApplyFields` | app/api/user/update/route.js:32-42 | an undefined key keeps the stored value; every given key replaces it; the password and the role are never touched |
| `ProfileUpdate.Update` | app/api/user/update/route.js:6-54 | no payload gives 401 and no change; only a 200 writes; the lookup runs exactly when the normalised email is non-empty; 409 exactly when another id owns it; a 200 writes the five fields of the caller only; an unreadable body gives 500; without a conflict, a 200 happens exactly when the caller's document exists, and otherwise the answer is 404 with no write |
| `ProfileUpdate.NoEmailNoCheck` | app/api/user/update/route.js:21-29 | with no email, or one blank after trimming, the lookup is skipped and no 409 can occur |
| `ProfileUpdate.UpdateIsLocal` | app/api/user/update/route.js:32-42 | a 200 keeps the set of users, leaves every other user's document as it was, and keeps the caller's password and role |
| `ProfileUpdate.StoredEmailIsNormalized` | app/api/user/update/route.js:21-46 | without a conflict, a sent email is stored trimmed and lower-cased, and a missing user gives 404 |
| `ProfileUpdate.ConflictIffOtherOwner` | app/api/user/update/route.js:24-29 | with unique emails and a faithful lookup, 409 exactly when a different user holds the normalised email |
| `ProfileUpdate.NormalizeIdempotent` | app/api/user/update/route.js:21 | normalising twice gives the same email as normalising once |
| `ProductCarousel.Visible` | components/ProductGridWithCarousel.js:10 | the grid is a prefix of the list, of length 12 or the whole list |
| `ProductCarousel.Remaining` | components/ProductGridWithCarousel.js:11 | the carousel holds the products past the twelfth |
| `ProductCarousel.SplitIsList` | components/ProductGridWithCarousel.js:9-11 | grid followed by carousel is the product list, and the carousel is non-empty only when the grid is full |
| `ProductCarousel.TickStep` | components/ProductGridWithCarousel.js:48-52 | one interval tick: back to 0 exactly when the index has reached the last full window, and an index in range stays in range |
| `ProductCarousel.TicksCycle` | components/ProductGridWithCarousel.js:45-55 | from the start the tick steps through every window and wraps to 0 after the last full one |
| `ProductCarousel.Carousel.constructor` | components/ProductGridWithCarousel.js:8-16 | the carousel starts at index 0 with no liked product |
| `ProductCarousel.Carousel.Tick` | components/ProductGridWithCarousel.js:45-55 | the tick moves only with more than five products in the carousel: forward until the last full window, then back to 0; the index stays in range |
| `ProductCarousel.Carousel.Prev` | components/ProductGridWithCarousel.js:112 | moves back one only when `canGoPrev`; the index stays in range |
| `ProductCarousel.Carousel.Next` | components/ProductGridWithCarousel.js:144 | moves forward one only when `canGoNext`; the index stays in range |
| `ProductCarousel.Carousel.LoadLikes` | components/ProductGridWithCarousel.js:22-35 | the liked list is replaced only by a successful reply that carries one |
| `ProductCarousel.Carousel.ToggleLike` | components/ProductGridWithCarousel.js:58-81 | on success the id is toggled; a refusal or an exception leaves the list and only shows a toast |
| `ProductCarousel.Session` | components/ProductGridWithCarousel.js:18-55 | after any sequence of button presses, ticks and likes the index lies between 0 and the last full window |
| `Favourites.RemoveProduct` | app/mon-espace/favoris/page.js:57-59 | the filter never adds products |
| `Favourites.RemoveProductMembers` | app/mon-espace/favoris/page.js:57-59 | the filter keeps exactly the products with another id |
| `Favourites.RemoveProductAppend` | app/mon-espace/favoris/page.js:57-59 | the filter works piecewise, so the kept products stay in order |
| `Favourites.RemoveAbsent` | app/mon-espace/favoris/page.js:57-59 | removing an id no product has changes nothing |
| `Favourites.FavouritesPage.constructor` | app/mon-espace/favoris/page.js:10-12 | the page starts loading, with no product and nothing in flight |
| `Favourites.FavouritesPage.Load` | app/mon-espace/favoris/page.js:14-40 | an array replaces the list; a non-array or a failure empties it; loading ends in every case |
| `Favourites.FavouritesPage.StartToggle` | app/mon-espace/favoris/page.js:42-51 | a click on an id in flight sends nothing; any other click marks the id before its request goes out |
| `Favourites.FavouritesPage.FinishToggle` | app/mon-espace/favoris/page.js:53-73 | on success the product leaves the list, otherwise the list stays; the id is released in every case, and the toast matches the reply |
| `Favourites.DoubleClick` | app/mon-espace/favoris/page.js:42-74 | a second click before the reply sends no request; afterwards nothing is in flight and the product is gone |
| `AdminContacts.FilterByName` | app/admin/contacts/page.js:40 | the filter never adds users |
| `AdminContacts.FilterMembers` | app/admin/contacts/page.js:40 | the filter keeps exactly the users whose lowercased name contains the lowercased search; users without a name are dropped |
| `AdminContacts.FilteredMembers` | app/admin/contacts/page.js:39-41 | filtering then sorting lists the same users, each as often as fetched |
| `AdminContacts.EmptySearchKeepsNamed` | app/admin/contacts/page.js:40 | an empty search keeps every user with a name |
| `AdminContacts.FilteredOrder` | app/admin/contacts/page.js:41 | when every user has a date, the list is by date, most recent first, and equal dates keep their order |
| `AdminContacts.EmptySearchShowsNamedContacts` | app/admin/contacts/page.js:39-40 | on the contact list endpoint's reply, an empty search shows exactly the users with a name |
| `AdminContacts.AdminContactsPage.constructor` | app/admin/contacts/page.js:9-13 | no users, no selection, empty search, loading, not full screen |
| `AdminContacts.AdminContactsPage.LoadUsers` | app/admin/contacts/page.js:15-35 | a reply replaces the list and selects its first user when there is one; a failure shows a toast and keeps the list; loading ends either way |
| `AdminContacts.AdminContactsPage.SetSearch` | app/admin/contacts/page.js:67 | the search becomes the typed value and nothing else changes |
| `AdminContacts.AdminContactsPage.SelectUser` | app/admin/contacts/page.js:43-48 | the user is selected; full screen is switched on only below 768 px, and never switched off |
| `AdminContacts.AdminContactsPage.BackToUsers` | app/admin/contacts/page.js:50-53 | going back clears the selection and the full-screen view |
| `Chat.OutgoingIsTrimmed` | components/AdminConversation.js:53-56 | what is sent is not blank, has no surrounding white space, is its own trim, and carries the component's sender |
| `AdminConversation.ConversationPane.constructor` | components/AdminConversation.js:9-13 | no messages, not loading, the default avatar, empty input, not sending |
| `AdminConversation.ConversationPane.Type` | components/AdminConversation.js:155 | the input takes the typed value and nothing else changes |
| `AdminConversation.ConversationPane.FetchAdmin` | components/AdminConversation.js:16-27 | the admin's image is used when it is non-empty, and `/user.png` otherwise; a failure shows a toast and keeps the image, so a non-empty image never becomes empty |
| `AdminConversation.ConversationPane.FetchMessages` | components/AdminConversation.js:29-44 | without a selected id nothing happens; otherwise the list becomes the fetched one (or empty), a failure keeps it with a toast, and loading ends |
| `AdminConversation.ConversationPane.HandleSendMessage` | components/AdminConversation.js:50-76 | a blank input or no selected user does nothing; otherwise the trimmed message from `admin` is appended, the input cleared, the POST sent while `sending` holds, and a failure adds only a toast |
| `AdminConversation.ConversationPane.Submit` | components/AdminConversation.js:53-75 | appends the optimistic message and clears the input before the POST goes out with `sending` set; afterwards `sending` is off, and a toast appears exactly when the POST failed |
| `AdminConversation.FailedSendKeepsReply` | components/AdminConversation.js:60-73 | after a failed POST the optimistic message is still the last one shown and the input is empty |
| `ContactDrawer.Drawer.constructor` | components/ContactDrawer.js:11-16 | no user, no messages, loading, empty input, not sending |
| `ContactDrawer.Drawer.Type` | components/ContactDrawer.js:144 | the input takes the typed value and nothing else changes |
| `ContactDrawer.Drawer.FetchUser` | components/ContactDrawer.js:19-31 | a closed drawer fetches nothing; an open one takes the reply's user, or keeps it with a toast on failure |
| `ContactDrawer.Drawer.FetchMessages` | components/ContactDrawer.js:33-48 | no user means no load; otherwise the list becomes the fetched one (or empty), a failure keeps it with a toast, and loading ends |
| `ContactDrawer.Drawer.HandleSend` | components/ContactDrawer.js:54-78 | a blank input or no user does nothing; otherwise the trimmed message from `user` is appended, the input cleared, the POST sent with `sending` set, and a failure adds only a toast |
| `ContactDrawer.Drawer.Submit` | components/ContactDrawer.js:57-77 | appends the optimistic message and clears the input before the POST goes out with `sending` set; afterwards `sending` is off, and a toast appears exactly when the POST failed |
| `ContactDrawer.ClosedDrawerStaysEmpty` | components/ContactDrawer.js:19-55 | while the drawer stays closed: no user, no messages and no POST, whatever is typed and sent |

## Left out

- The network, the media host, the database, JWT signing and verification, and bcrypt are replaced by
  parameters or replies. Mongoose queries are represented by what they return.
- The add-product page's description and price text inputs are plain field assignments, with no
  handler of their own. `parseFloat(price)` is not modelled: the record keeps the typed text.
- `AddProduct.Progress`: the floating-point `uploaded / totalFiles * 100` followed by `Math.round`
  is taken as exact rational rounding, half up (`(200k + n) div 2n`). Intermediate `loading` and
  `progress` renders are collapsed into the logged values.
- A missing principal image (`imagePrincipale` null) is not checked by the page. In the model it is
  an upload call with no file, and the media-host map decides whether that call succeeds.
- `ProductFolder.Classify`: `Object.keys` enumerates integer-like keys first. The model keeps every
  motif name in first-appearance order. Motif names that clash with `Object.prototype` members
  (`constructor`, …) are not modelled either.
- Timers, async interleavings, React effect scheduling and stale closures are not modelled. Each
  handler runs to completion on the latest state. This leaves out the following:
  - the carousel's 1-second loading timer;
  - interleaved chat sends;
  - the case where two favourites clicks are handled before a re-render (the guard would then see
    the old set).
- The race between the name check and the create request is not modelled: it is concurrency.
- `AdminContacts.FilteredOrder`: the order is claimed only when every listed user has a
  `lastUpdated`. For a user without one the comparator yields NaN, so the order is up to the
  engine. The function uses key 0 for such users, and no lemma relies on their position.
- Case mapping is ASCII only: `toLowerCase`/`toUpperCase` on other letters are not modelled.
- `ContactUsers.ListContacts`: the 500 reply on a database error is not modelled, because the
  queries are inputs.
- `ProfileUpdate.Update`:
  - A write of `undefined` keys is taken to leave the stored value, as recent Mongoose versions do.
  - Non-string JSON values for the fields are not modelled.
  - Schema setters and validators (`models/User.js`) are not modelled.
- `LikeRoute.UserStore.Put`: `itemId` is either falsy (absent, `null`, `""`) or a string. A truthy
  non-string value, such as a number, is not modelled. A rejected save is taken to leave the stored
  document as it was.
- `Register.Register`: a field is either falsy (absent, `null`, `""`) or a string. A truthy
  non-string value, such as a number or an object, is not modelled. The schema's `minlength` on the
  password applies to the hash, which is long enough, so it is not modelled.
- The carousel's `translateX` percentage and all rendering are not modelled: card markup, skeletons
  and `scrollIntoView`. The carousel's product list is taken to stay the same while it is mounted.
- `ContactDrawer.Drawer`: the user is kept as its id only. The drawer's fixed `/assis.png` avatar is
  not modelled.
- The message timestamp `new Date()` is the parameter `now`.
