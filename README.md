# Auth backend: validation rules, handlers and session gate

This project models the authentication core of an Express backend for a
course platform. It has three parts, each with its properties proved.

**Request validation rules.** There are four express-validator rule lists,
for signup, signin, profile update and password update. The `validate`
step follows them.
- A rule list sanitizes the body: it trims fields and normalises the email.
- It runs every validator of every chain, in order.
- It collects one `{field, message}` error per failed validator.
- `validate` then answers 400 "Validation Failed" with those errors, or
  lets the request through.

**Auth handlers.**
- `signup` checks for a username or email conflict. If there is none, it
  stores one record, keeping an optional field only when it is truthy.
- `signin` goes through an ordered table: 400, 401, 401, then 200 with a
  signed token.
- `getCurrentUser` looks up the caller by id. It answers 404 or 200.

**Session gate.**
- It takes the token from the `Authorization` header (the second
  space-separated piece).
- It verifies the token and looks up the user.
- It answers 401 with one of three messages, or attaches `userId` and
  `user` to the request and calls `next`.

Modules:

- `Wrappers`: `Option`.
- `JsStrings`: JavaScript `trim` with its whitespace set, `split` on one
  character and its inverse `join`, and decimal number text.
- `Messages`: every message the rule lists report, with its exact text.
- `Payload`: JSON body values and the coercions the validators apply
  (`toString`, truthiness, `Object.keys`). It also holds the `{field, message}`
  error.
- `Validators`: the validator.js predicates the rules use: `isAlpha` with
  ignored characters, `isAlphanumeric`, `isInt` with a range.
- `Users`: the stored user record and its password-free public view. It
  holds the `findOne` / `findById` lookups and the `UserStore` object that
  `save()` appends to.
- `Http`: the reply envelope, and the middleware outcome (`next()`, or an
  answer).
- `Tokens`: the token claims and the abstract sign/verify library.
- `AuthValidation`: the four rule lists and `validate`.
- `AuthController`: `signup`, `signin` and `getCurrentUser`.
- `AuthMiddleware`: token extraction, the gate's decision, and the method
  that updates the request.
- `AuthRoutes`: the route chains (rules → `validate` → handler, and gate →
  handler) with the properties of the composition.

Parameters stand in for what lives outside the code:
- the email validator and normaliser are `EmailLib`;
- bcrypt's comparison is `Comparator`;
- `jsonwebtoken` with the server secret is `Jwt`.

## Model

| member | source | states |
|---|---|---|
| `JsStrings.Trim` | Validation/authValidation.js:7 | `trim()` gives a slice of its input with only whitespace cut from the two ends and none left at either edge; it leaves an already trimmed string alone and empties exactly the all-whitespace strings |
| `Validators.IsAlphaLettersSpacesHyphens` | Validation/authValidation.js:10 | `isAlpha("en-US", {ignore: " -"})` holds exactly when every character is an ASCII letter, space or hyphen and at least one is a letter |
| `Validators.IsIntOfNumber` | Validation/authValidation.js:70 | `isInt({min, max})` on a number's decimal text holds exactly when the number lies in the range |
| `AuthValidation.PasswordPatternMeaning` | Validation/authValidation.js:47 | the password regex with its two lookaheads matches exactly the strings of at least 9 ASCII letters and digits with at least one letter and one digit |
| `AuthValidation.ChainErrors` | Validation/authValidation.js:6-13 | a chain reports errors only under its own field, and none exactly when every validator passed |
| `AuthValidation.ChainErrorsMeaning` | Validation/authValidation.js:6-13 | a chain reports a message exactly when one of its validators failed with that message, and reports as many errors as validators failed |
| `AuthValidation.RequiredNameChainMeaning` | Validation/authValidation.js:6-22 | a trimmed signup first or last name passes exactly when it is 3 to 30 letters, spaces and hyphens with at least one letter |
| `AuthValidation.SignupUsernameChainMeaning` | Validation/authValidation.js:24-31 | a trimmed signup username passes exactly when it is 3 to 15 ASCII letters and digits |
| `AuthValidation.SignupEmailChainMeaning` | Validation/authValidation.js:33-39 | a trimmed signup email passes exactly when it is non-empty and an email address |
| `AuthValidation.RequiredPasswordChainMeaning` | Validation/authValidation.js:41-50 | a trimmed password (or new password) passes exactly when it is strong: at least 9 characters, only ASCII letters and digits, at least one of each |
| `AuthValidation.OptionalChainMeaning` | Validation/authValidation.js:53-71 | an optional field produces no error when absent, and otherwise exactly when its check fails |
| `AuthValidation.FirstInvalidKey` | Validation/authValidation.js:85-90 | the key the custom check throws on is absent exactly when every key is an allowed social link key, and otherwise is the first key, in key order, outside the set |
| `AuthValidation.FindInvalidKey` | Validation/authValidation.js:85-90 | the loop over the keys stops at the first key, in key order, outside {facebook, twitter, linkedin, github, website}, or finds none exactly when all are allowed |
| `AuthValidation.SocialLinksValidatorsMeaning` | Validation/authValidation.js:73-92 | the socialLinks validators pass exactly on objects whose keys are all allowed; on an object with a bad key only the key check fails, and its message names the first bad key |
| `AuthValidation.SocialLinksChainMeaning` | Validation/authValidation.js:73-92 | an absent socialLinks field passes, and a present one passes exactly when it is an object with allowed keys only |
| `AuthValidation.SignupBasicAccepts` | Validation/authValidation.js:6-50 | the five basic signup chains report nothing exactly when the trimmed names, username, email and password are all acceptable |
| `AuthValidation.SignupOptionalAccepts` | Validation/authValidation.js:52-92 | the five optional signup chains report nothing exactly when every field that was sent is acceptable: role in the enum, bio ≤ 500, title ≤ 100, experience an integer 0 to 100, socialLinks with allowed keys |
| `AuthValidation.SignupErrorsMeaning` | Validation/authValidation.js:4-93 | the whole signup list reports no error exactly when the basic and the optional fields are acceptable |
| `AuthValidation.SignupAccepts` | Validation/authValidation.js:4-93 | the same, for the signup rules run on a request body |
| `AuthValidation.SignupBody` | Validation/authValidation.js:6-50 | after the signup sanitizers the body holds the trimmed first and last names, the trimmed username, the trimmed and normalised email, and the trimmed password, as text, and every other field as it came |
| `AuthValidation.SignupExperienceNumber` | Validation/authValidation.js:68-71 | a numeric experience is accepted by signup only inside 0 to 100, and any value inside the range is accepted |
| `AuthValidation.SigninBody` | Validation/authValidation.js:101-107 | after the signin sanitizers a sent email is normalised, the password is trimmed, and every other field is as it came |
| `AuthValidation.SigninAccepts` | Validation/authValidation.js:95-115 | signin reports no error exactly when a sent username is alphanumeric, a sent email is an address, the trimmed password is non-empty, and a username or a normalised email is truthy |
| `AuthValidation.OptionalNameChainMeaning` | Validation/authValidation.js:117-132 | a profile first or last name passes when absent, and otherwise exactly when its trimmed value is an acceptable name |
| `AuthValidation.ProfileErrorsMeaning` | Validation/authValidation.js:117-169 | the profile-update list reports no error exactly when every field that was sent is acceptable |
| `AuthValidation.ProfileAccepts` | Validation/authValidation.js:117-169 | the same, for the profile rules run on a request body |
| `AuthValidation.ExperienceRulesDiffer` | Validation/authValidation.js:144-147 | profile update checks experience only as text of at most 100 characters, so an experience of 500 passes there and fails at signup |
| `AuthValidation.PasswordUpdateErrorsMeaning` | Validation/authValidation.js:171-199 | the password-update list reports no error exactly when the current password is non-blank, the new one is strong, and the confirmation equals it |
| `AuthValidation.PasswordUpdateAccepts` | Validation/authValidation.js:171-199 | the same, for the password-update rules run on a request body |
| `AuthValidation.PasswordMismatchReported` | Validation/authValidation.js:189-198 | "Password do not match" is reported under confirmPassword exactly when the trimmed confirmation differs from the trimmed new password |
| `AuthValidation.Validate` | Validation/authValidation.js:201-214 | the request continues exactly when there are no errors; otherwise the reply is 400, `success: false`, "Validation Failed", with every error in its original order |
| `Users.SanitizeForgetsOnlyPassword` | controller/authController.js:59-71 | the public view drops the password and nothing else: two records have the same view exactly when they agree on every other field |
| `Users.FindOne` | controller/authController.js:23-25 | the lookup finds nothing exactly when no record matches a supplied username or email, and otherwise finds a stored matching record |
| `Users.FindById` | controller/authController.js:166 | the lookup by id finds nothing exactly when no record has the id, and otherwise finds a stored record with it |
| `Users.UserStore.Save` | controller/authController.js:54 | `save()` appends exactly the new record and keeps ids distinct |
| `Users.UserStore.NewId` | controller/authController.js:39 | a new document gets an id no stored record has |
| `AuthController.ConflictBlamesMatchedField` | controller/authController.js:28-36 | a conflict message names a field that really matched: "Username already exists" exactly when the usernames agree, "Email already exists" only when the sent email is the record's |
| `AuthController.Kept` | controller/authController.js:46-51 | `...(field && {field})` never stores a falsy value; it stores something exactly when the value sent is truthy, and what it stores is the value sent |
| `AuthController.NewUser` | controller/authController.js:39-52 | the new record holds the basic fields as sent; each optional field is set exactly when a truthy value was sent, and then to that value |
| `AuthController.NewUserNeverStoresFalsy` | controller/authController.js:46-51 | for every request, each optional field of the new record is unset or truthy |
| `AuthController.FalsyOptionalsDropped` | controller/authController.js:46-51 | `experience: 0` and an empty bio are not stored |
| `AuthController.InsertKeepsIdentifiersUnique` | controller/authController.js:23-54 | inserting a record that the conflict lookup did not match keeps usernames and emails unique in the store |
| `AuthController.Signup` | controller/authController.js:6-72 | on a conflict the answer is 400 with the conflict message and the store is unchanged; otherwise exactly one record is appended and the answer is 201 "User Created Successfully" with its password-free view; unique identifiers stay unique |
| `AuthController.Signin` | controller/authController.js:84-150 | 400 exactly when neither username nor email is truthy; "Invalid username or email" exactly when one is given and no record matches; "Invalid Password" exactly when one is given and the record found first fails the comparison; 200 exactly when one is given and the record found first compares; `success` and a token exactly on 200, and then "Login successful" for the record found first, whose password compares, with claims {userId, username, email, role}, a 24h lifetime and its password-free view |
| `AuthController.SigninGuardPrecedesLookup` | controller/authController.js:89-94 | without a username or email the answer is the 400 whatever the store holds |
| `AuthController.SigninChecksFirstMatchOnly` | controller/authController.js:97-116 | the password is compared with the first matching record only: when it fails there, a later record that would compare does not rescue the request |
| `Users.FindOneAppend` | controller/authController.js:97-99 | once the lookup finds a record, a record saved later never displaces it |
| `AuthController.GetCurrentUser` | controller/authController.js:161-182 | 404 "User not found" exactly when no record has the caller's id; otherwise 200 with that record minus its password |
| `AuthMiddleware.ExtractToken` | middleware/authMiddleware.js:7 | without a header there is no token, and a token never contains a space |
| `AuthMiddleware.ExtractTokenIsSecondWord` | middleware/authMiddleware.js:7 | `split(" ")[1]` is the text after the first space up to the next space, and undefined when the header has no space |
| `AuthMiddleware.SchemeNotChecked` | middleware/authMiddleware.js:7 | any first word followed by a space and a space-free token yields that token; "Bearer" is never checked |
| `AuthMiddleware.Authenticate` | middleware/authMiddleware.js:4-41 | every rejection is 401 with `success: false`; "No token provided, authorization denied" exactly when the token is missing or empty; "Token is not valid or has expired" exactly when verification fails; "User not found" exactly when the token verifies and no stored record has its userId; admission exactly when a stored record has it, and then with the token's userId and that record minus its password |
| `AuthMiddleware.SignedTokenAdmits` | middleware/authMiddleware.js:18-33 | a token the library signed for a stored user is admitted as that user, whatever scheme word precedes it |
| `AuthMiddleware.Authorize` | middleware/authMiddleware.js:29-33 | on admission `req.userId` and `req.user` are set and `next` is called; on every rejection the request is left unchanged and answered |
| `AuthRoutes.ValidatedSigninHasIdentifier` | routes/authRoutes.js:54 | a signin that passes validation reaches the handler with a truthy username or email and with the trimmed password |
| `AuthRoutes.SigninRouteNeverMissesIdentifier` | routes/authRoutes.js:54 | through the signin route the handler's "Please provide a username or email" answer never occurs |
| `AuthRoutes.ValidatedSignupRecord` | routes/authRoutes.js:53 | a record created behind the signup rules has a 3 to 15 character alphanumeric username, the normalised email and a strong password, as text |
| `AuthRoutes.SignupRoute` | routes/authRoutes.js:53 | a signup the rules refuse is answered with the validation errors and never reaches the store; one they accept gets exactly the signup handler's answer and store change, on the sanitized body |
| `AuthRoutes.ProfileRouteShowsGateUser` | routes/authRoutes.js:57 | behind the gate the profile is never "not found": an admitted caller gets 200 with the user the gate attached, and everyone else gets the gate's 401 |

## Left out

- The 500 answers are not modelled: a throwing store, hash or library call, and the logging around it. In the gate, a throwing user lookup would answer 401 "Token is not valid or has expired"; the model's lookup never throws.
- `isEmail` and `normalizeEmail` are validator.js algorithms and are taken as the parameter `EmailLib`. A normaliser result of "" stands for the `false` that `normalizeEmail` returns on input it cannot parse.
- bcrypt hashing and `comparePassword` are not modelled; comparison is the parameter `Comparator`. `models/User` (its pre-save hashing hook, schema defaults such as role "student", unique indexes and type casting) is not part of this model. A stored field is what the handler passed in.
- `jsonwebtoken` is the parameter `Jwt`. Its secret, clock and expiry are inside it: `verify` answering `None` covers a bad signature, an expired token and a malformed one alike. `AuthMiddleware.SignedTokenAdmits` speaks of a token verified when it was signed and says nothing about expiry.
- `populate` of enrolled courses, created courses and wishlist in `getCurrentUser` is not modelled, and neither are schema fields the model does not list. The answer carries the stored fields minus the password.
- Mongo's `$or` matching with an `undefined` identifier is left out: the lookup matches only on identifiers that were supplied.
- `AuthController.ConflictMessage` compares usernames by value; JavaScript `===` compares objects by identity. The two differ only for an object-valued username, which the signup rules reject.
- JSON values are text, integers and objects of string-valued entries. Booleans, null, arrays, fractional numbers and nested objects are not modelled.
- JSON numbers are doubles in the source, and `String(n)` writes large ones in exponent form (`1e200` becomes "1e+200"). The model's numbers are unbounded integers written out in full, so the two texts differ for numbers beyond 10^21 and for integers no double holds exactly.
- validator.js `isLength` does not count the variation selectors U+FE0E and U+FE0F. The model counts every character, so a value holding those selectors can pass a length bound in the source and fail it in the model.
- An `Object` value lists its entries in `Object.keys` order, where integer-like keys come first in ascending order, then the others as inserted. The model takes that order as given and does not compute it from insertion order.
- The 401 "Token is not valid or has expired" reply also carries `error: error.message`, the library's reason. `Http.Reply` has no such field, so the model's reply leaves the reason out.
- `validate` reports each error's field as `error.param`. The model uses the chain's field name, as in express-validator versions where `param` carries it; in version 7 that property is called `path`.
- The check-then-insert race between two concurrent signups is not modelled. Neither is any other concurrency.
- Express app setup, CORS, rate limiting, the Mongo connection and multer uploads (storage, size limit, image filter) are not modelled.
- `PUT /profile` and `PUT /password` are not modelled as routes: their handlers `updateProfile` and `updatePassword` are imported but not defined by the controller. Their rule lists are modelled. Since `router.put` is handed those undefined handlers, and the router file requires `../validation/authValidation` while the directory is `Validation` (which fails on a case-sensitive file system), the routes module as written would throw when loaded; the `AuthRoutes` members model the route chains as evidently intended.
