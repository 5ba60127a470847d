# Strapi blog: verified model of its self-contained logic

The repository is a blog built on a headless CMS (Strapi) with a React front end. Most
of it is UI and HTTP plumbing. This project models, in Dafny, the four pieces that are
logic of their own:

- **The article form's submit handler** (`strapifront/src/components/ArticleForm.tsx`).
  It turns the slug field (or, when that is empty, the title) into a URL slug. It builds
  the payload, whose `cover` and `category` keys may be absent. It chooses the identifier
  an edit is sent to. Modules `Slug` (`slug.dfy`) and `ArticleForm` (`article_form.dfy`).
  The payload is built step by step in the method `BuildArticleData`, as the handler
  builds it in place.
- **API error normalisation** (`strapifront/src/utils/errorHandling.ts`). Any thrown value
  becomes `{status, message, details}`, and a status becomes a user-facing message.
  Module `ErrorHandling` (`error_handling.dfy`).
- **The backend article controller** (`my-project/src/api/article/controllers/article.ts`).
  `find` can keep only the featured articles. `getRelated` lists up to three other
  articles of the same category. Module `ArticleController` (`article_controller.dfy`).
- **The cover-image URL of the article list** (`getImageUrl` in
  `strapifront/src/components/ArticleList.tsx`). Module `ArticleList` (`article_list.dfy`).

JavaScript's semantics are modelled where the code depends on them:

- `JsValues` (`js_values.dfy`): JSON-like values, truthiness, `||`, property access with
  `.` (a TypeError on `null`/`undefined`) and `?.`, and template-literal text.
- `JsStrings` (`js_strings.dfy`): the white-space class of `\s` and `trim`, `toLowerCase`,
  `parseInt` with no radix (sign, `0x` prefix, longest digit prefix), and `Number(string)`.
  `Number` covers empty means 0, `0x`/`0o`/`0b`, fractions, exponents and `Infinity`.
- `Options` (`options.dfy`): the option type.

Behaviour of the code worth knowing, each proved in the model:

- A slug typed by the user is not lowered: its capital letters are deleted.
- A typed slug that cleans to nothing is sent as the empty slug. It is not replaced by
  one derived from the title.
- A Strapi error body whose `error` field is `null` makes `handleApiError` itself throw
  a TypeError.
- An `Error` with an empty message keeps that empty message.
- `find` with `featured=true` throws when an entry has no `attributes` wrapper.
- A route id of white space alone is numeric to `Number` and targets article 0.

## Model

| member | source | states |
|---|---|---|
| `Slug.NormalizeSlug` | strapifront/src/components/ArticleForm.tsx:106-117 | every slug produced, from the slug field or from the title, consists of `a-z 0-9 - _ . ~` only and has no white space |
| `Slug.DashWhiteSpace` | strapifront/src/components/ArticleForm.tsx:111 | replacing `\s+` by `-` leaves no white space |
| `Slug.DashRuns` | strapifront/src/components/ArticleForm.tsx:115 | the run-aware replacement leaves no white space and never lengthens the text |
| `Slug.KeepSlugChars` | strapifront/src/components/ArticleForm.tsx:112 | deleting `[^a-z0-9-_.~]` leaves only slug characters and never lengthens the text |
| `Slug.DashWhiteSpaceRun` | strapifront/src/components/ArticleForm.tsx:115 | a maximal white-space run between two non-white parts becomes exactly one `-` |
| `Slug.DerivedSlugDashesRun` | strapifront/src/components/ArticleForm.tsx:109-112 | in the title, each maximal white-space run becomes exactly one `-` of the derived slug |
| `Slug.DerivedSlugLowersCapital` | strapifront/src/components/ArticleForm.tsx:109-112 | a capital letter of the title appears lowered in the derived slug, in place |
| `Slug.TypedSlugDropsCapital` | strapifront/src/components/ArticleForm.tsx:113-117 | a capital letter of a typed slug is deleted, not lowered |
| `Slug.TypedCapitalsGiveEmptySlug` | strapifront/src/components/ArticleForm.tsx:107-117 | a typed slug of capitals only becomes the empty slug; the title is not used in its place |
| `Slug.CleanSlugDeletes` | strapifront/src/components/ArticleForm.tsx:116 | a character that is neither white space nor a slug character vanishes without a trace |
| `Slug.CleanSlugIdempotent` | strapifront/src/components/ArticleForm.tsx:114-116 | cleaning a cleaned slug changes nothing |
| `Slug.NormalizeSlugStable` | strapifront/src/components/ArticleForm.tsx:107-117 | a non-empty produced slug typed back into the slug field comes out unchanged |
| `Slug.DashRunsAppend` | strapifront/src/components/ArticleForm.tsx:111 | the dash replacement of a concatenation is that of its parts, the second continuing the first's run |
| `Slug.DashAroundNonWhite` | strapifront/src/components/ArticleForm.tsx:111 | a non-white character passes through the dash replacement alone and splits it |
| `Slug.DashRunsOfWhite` | strapifront/src/components/ArticleForm.tsx:111 | a non-empty white-space run alone becomes one `-`, or nothing when it continues a run |
| `Slug.DashWhiteSpaceIdentity` | strapifront/src/components/ArticleForm.tsx:115 | text without white space is left unchanged by the dash replacement |
| `Slug.KeepSlugCharsIdentity` | strapifront/src/components/ArticleForm.tsx:116 | text made of slug characters is left unchanged by the deletion |
| `Slug.KeepSlugCharsAppend` | strapifront/src/components/ArticleForm.tsx:112 | the character deletion distributes over concatenation |
| `Slug.LowerCharNotWhite` | strapifront/src/components/ArticleForm.tsx:110 | lowering a non-white character gives at least one character and no white space |
| `Slug.ToLowerCaseKeepsWhiteSpace` | strapifront/src/components/ArticleForm.tsx:110 | lowering leaves white space unchanged |
| `Slug.CleanSlug` | strapifront/src/components/ArticleForm.tsx:114-116 | a typed slug cleans to slug characters only, never longer than the field, and a field that already is a slug passes unchanged; with `CleanSlugIdempotent` and `CleanSlugDeletes` this fixes what the cleaning keeps and drops |
| `Slug.DeriveSlug` | strapifront/src/components/ArticleForm.tsx:109-112 | the slug derived from a title is made of slug characters only, and a title that already is a slug is its own slug; `DerivedSlugDashesRun`, `DerivedSlugLowersCapital` and `DerivedSlugDeletes` fix how each title character is treated |
| `Slug.DerivedSlugDeletes` | strapifront/src/components/ArticleForm.tsx:109-112 | a title character that is neither white space nor a slug character, and lowers to itself, vanishes from the derived slug, which splits into the slugs of the text around it |
| `Slug.DerivedSlugKeeps` | strapifront/src/components/ArticleForm.tsx:109-112 | a slug character of the title stays in place in the derived slug, which around it is the slugs of the text before and after |
| `Slug.CleanSlugKeeps` | strapifront/src/components/ArticleForm.tsx:114-116 | a slug character of a typed slug stays in place, and the text around it is cleaned independently |
| `JsStrings.ToLowerCase` | strapifront/src/components/ArticleForm.tsx:110 | `toLowerCase` leaves no ASCII capital |
| `JsStrings.Trim` | strapifront/src/components/ArticleForm.tsx:165 | `trim()` gives text no longer than its input that neither starts nor ends with white space |
| `JsStrings.TrimStart` | strapifront/src/components/ArticleForm.tsx:165 | the result is a suffix, all that was dropped is white space, and it does not start with white space |
| `JsStrings.TrimEnd` | strapifront/src/components/ArticleForm.tsx:165 | the result is a prefix, all that was dropped is white space, and it does not end with white space |
| `JsStrings.TrimEmptyIff` | strapifront/src/components/ArticleForm.tsx:165 | `trim() === ''` exactly when every character is white space |
| `JsStrings.ParseInt` | strapifront/src/components/ArticleForm.tsx:166-167 | `parseInt` of text that is only white space is NaN; `ParseIntDecimalPrefix` and `ParseIntOfDigits` fix that it reads a leading decimal number and ignores what follows |
| `JsStrings.StringToNumber` | strapifront/src/components/ArticleForm.tsx:199-200 | `Number` of text that is only white space is 0; `NumberOfDecimalText` and `NotNumberWhenLetterFirst` fix that decimal text reads as its number and text starting with a letter is NaN |
| `JsStrings.DigitPrefix` | strapifront/src/components/ArticleForm.tsx:166 | `parseInt` reads the longest prefix of digits of the radix |
| `JsStrings.DecimalTextDigits` | strapifront/src/components/ArticleForm.tsx:166 | decimal text is digits only, starts with `0` only for zero, and denotes its number |
| `JsStrings.ParseIntDecimalPrefix` | strapifront/src/components/ArticleForm.tsx:166 | `parseInt` reads the leading decimal number and ignores what follows |
| `JsStrings.ParseIntOfDigits` | strapifront/src/components/ArticleForm.tsx:166 | a string of decimal digits followed by a non-digit is read as those digits' value |
| `JsStrings.NumberOfDecimalText` | strapifront/src/components/ArticleForm.tsx:199-200 | `Number` reads the decimal text of a natural number as that number |
| `JsStrings.NotNumberWhenLetterFirst` | strapifront/src/components/ArticleForm.tsx:199-203 | a string whose trimmed text starts with a lower-case letter is NaN to `Number` |
| `JsValues.Truthy` | strapifront/src/components/ArticleList.tsx:8-13 | a value is truthy exactly when it is none of `undefined`, `null`, `false`, `0` and `''` |
| `JsValues.Or` | strapifront/src/utils/errorHandling.ts:27-29 | `a || b` is `a` when `a` is truthy and `b` otherwise, and is truthy exactly when one of them is |
| `JsValues.Prop` | strapifront/src/utils/errorHandling.ts:19-29 | reading a property with `.` throws exactly on `undefined` and `null`; on an object it gives the key's value, or `undefined` when the key is absent |
| `JsValues.OptProp` | strapifront/src/components/ArticleList.tsx:11-12 | `?.` reads what `.` reads when that does not throw, and gives `undefined` on `undefined` and `null` |
| `JsValues.ToText` | strapifront/src/components/ArticleList.tsx:11-13 | a template literal inserts a string as it is and any other value as non-empty text |
| `ArticleForm.BuildArticleData` | strapifront/src/components/ArticleForm.tsx:106-175 | title and description are copied verbatim and the slug is normalised; `cover` is present exactly for a truthy uploaded id, as `{id}`; `category` is present exactly when the trimmed field is non-empty and `parseInt` yields a number, with that number |
| `ArticleForm.UpdateTarget` | strapifront/src/components/ArticleForm.tsx:184-205 | a truthy document id is the target; otherwise the route id's number when `Number` reads it, else the route id unchanged |
| `ArticleForm.SubmitRequest` | strapifront/src/components/ArticleForm.tsx:179-216 | create sends a create; edit with a truthy route id sends an update of the chosen target; edit without one sends nothing |
| `ArticleForm.DocumentIdPreferred` | strapifront/src/components/ArticleForm.tsx:184-187 | a known document id wins over the route id |
| `ArticleForm.NumericRouteId` | strapifront/src/components/ArticleForm.tsx:195-201 | without a document id, a numeric route id targets its number |
| `ArticleForm.SlugRouteIdUsedAsIs` | strapifront/src/components/ArticleForm.tsx:202-204 | without a document id, a slug-like route id is used as typed |
| `ArticleForm.BlankRouteIdIsZero` | strapifront/src/components/ArticleForm.tsx:182-200 | any non-empty route id made of white space alone is truthy and targets the number 0 |
| `ErrorHandling.HandleApiError` | strapifront/src/utils/errorHandling.ts:11-46 | Strapi body: status is the body's, else the response's, else 500, message falls back to the unknown-error text, details copied; other client errors: response status or 500, raw body as details; anything else: 500 and no details; the status is always truthy; a `null` Strapi error throws |
| `ErrorHandling.IsStrapiBody` | strapifront/src/utils/errorHandling.ts:16-18 | the Strapi branch is taken exactly for a response whose body is an object with an `error` key; the truthiness test adds nothing for an object |
| `ErrorHandling.FriendlyMessage` | strapifront/src/utils/errorHandling.ts:49-63 | statuses 400, 401, 403, 404 and 500 give their fixed texts; any other status gives the error's message, or the unknown-error text when it is falsy; the result is never falsy |
| `ErrorHandling.StatusNeverMissing` | strapifront/src/utils/errorHandling.ts:26-43 | the normalised status is never `undefined`, `null`, `0`, `''` or `false` |
| `ErrorHandling.MessageMissingOnlyForEmptyError` | strapifront/src/utils/errorHandling.ts:26-45 | the normalised message is falsy exactly for an `Error` whose own message is empty |
| `ErrorHandling.NonClientErrorShowsServerText` | strapifront/src/utils/errorHandling.ts:42-60 | anything thrown that is not a client error is shown as the server-error text |
| `ErrorHandling.NoResponseShowsServerText` | strapifront/src/utils/errorHandling.ts:33-60 | a client error without a response is shown as the server-error text |
| `ErrorHandling.StrapiNotFoundShown` | strapifront/src/utils/errorHandling.ts:16-58 | a Strapi body with status 404 is shown as "not found" whatever the HTTP status |
| `ArticleController.FeaturedFlag` | my-project/src/api/article/controllers/article.ts:16 | `article.attributes.featured` throws exactly when the entry or its `attributes` is `undefined` or `null`, and otherwise reads what the `?.` chain reads |
| `ArticleController.FilterFeatured` | my-project/src/api/article/controllers/article.ts:16 | the filter fails exactly when some entry has no `attributes`; otherwise it keeps exactly the entries whose `featured` is `true`, in order, each as often as it occurs |
| `ArticleController.Find` | my-project/src/api/article/controllers/article.ts:9-22 | with `featured === 'true'`, `data` is the featured subsequence and `meta` passes through; with any other value both are returned unchanged |
| `ArticleController.FindOne` | my-project/src/api/article/controllers/article.ts:35-38 | the row found is stored and matches the id; nothing is found exactly when no row matches |
| `ArticleController.Candidates` | my-project/src/api/article/controllers/article.ts:48-55 | a row is a candidate exactly when it is stored, is not the requested article and has the same category |
| `ArticleController.GetRelated` | my-project/src/api/article/controllers/article.ts:25-58 | a missing id is a bad request; no matching article is not-found; otherwise at most 3 rows, each stored, not the article itself and of its category, and none when it has no category |
| `ArticleController.MissingIdNeedsNoLookup` | my-project/src/api/article/controllers/article.ts:29-31 | a missing id gives the bad request whatever the store holds |
| `ArticleController.RelatedComplete` | my-project/src/api/article/controllers/article.ts:48-55 | the list is the first candidates up to the limit, so fewer than 3 means every candidate is listed |
| `ArticleList.GetImageUrl` | strapifront/src/components/ArticleList.tsx:7-16 | a missing cover gives the placeholder; the medium url wins, then the small one, then the top-level one, each after the CMS address; the result is the placeholder or the CMS address followed by one of the cover's truthy urls |
| `ArticleList.ServedUrlIsNotPlaceholder` | strapifront/src/components/ArticleList.tsx:8-15 | no CMS url equals the placeholder |
| `ArticleList.PlaceholderIff` | strapifront/src/components/ArticleList.tsx:8-15 | the placeholder is returned exactly when the cover is missing or has none of the three urls |
| `ArticleList.MediumPreferred` | strapifront/src/components/ArticleList.tsx:10-11 | a cover shaped like the CMS's image record with a medium rendition is shown through it |

## Left out

- The image upload (strapifront/src/components/ArticleForm.tsx:119-142) is I/O. Its outcome enters `BuildArticleData` as the uploaded id; the upload-failure error is not modelled.
- The API calls, navigation, logging, loading and error state of the form are not modelled. This includes the message picked in the form's `catch` (strapifront/src/components/ArticleForm.tsx:217-223) and the article fetch when editing (27-81).
- `ArticleForm.UpdateTarget`: the target keeps the number; `String(numericId)`, the text actually sent, is not modelled because number-to-string formatting of doubles is out of scope.
- `JsStrings.StringToNumber`: values are exact reals, not rounded to binary64 doubles. Which branch is taken (NaN or not) does not depend on rounding.
- `JsStrings.ParseInt`: digits beyond double precision are kept exactly, and a negative zero is 0.
- `JsStrings.LowerChar`: only the case mappings that can reach the slug are modelled. These are the ASCII capitals, the Kelvin sign and the capital I with dot above. Every other character keeps itself; its real lower case is neither ASCII nor white space, so the slug filter deletes it either way.
- Strings are sequences of Unicode scalar values, not UTF-16 code units. The slug filter deletes both halves of a surrogate pair, which equals deleting the character.
- `JsValues.JsValue`: numbers are integers only, with no fractions and no NaN. Arrays are not told apart from plain objects; this matters only for `ToText` of an array, which `getImageUrl` never meets for a string url.
- `ArticleController.GetRelated`: how the database compares the string route parameter with the numeric id column is the parameter `idMatches`. Which three rows the database returns is unspecified in the source, so the store's order stands for the database's order and the first three candidates are taken.
- The framework's default `find` (`super.find`) and the database queries are collaborators. Their results enter as values.
- The `catch` of `getRelated` (my-project/src/api/article/controllers/article.ts:59-61) does not return a response and is not modelled.
- `updateByDocumentId` and `debug` are named in my-project/src/api/article/routes/article.ts:57-72 but not defined in the controller, so there is no code to model.
- The React components and hooks, the routes, the configuration, the type declarations and the HTTP service wrappers hold no logic of their own; they are not modelled.
