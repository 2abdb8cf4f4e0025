# Tourist guide booking site: a Dafny model of its backends and pages

The repository is a booking site for tourist guides. It has three kinds of users: tourists, guides and administrators. Several backends answer the same JSON API over one MySQL `users` table:

- the Express server `server.js`, with its copies `project/server.js` and `project/src/server.js`;
- two Next.js API routes;
- the mysqli scripts under `src/api/`;
- the PDO scripts under `api/`.

React pages read and write the signed-in user in `localStorage`. They guard routes by role, filter and sort the admin lists, and post the signup, profile and password forms. Two seed scripts insert or promote the administrator.

The model in Dafny follows the form of the code, file by file.

- **The database** is a `class Database` (store.dfy) whose fields are the `users` rows, the `user_id` column of a `guides` table (which setup_database.js does not create; see "## Left out"), and the next AUTO_INCREMENT value. Its predicate `Valid()` holds the table's own constraints:
  - ids are unique;
  - emails are unique;
  - the role is one of the ENUM values.

  Each SQL statement a handler runs is one method on it (`Select`, `RunUpdate`, `RunInsert`, `HasGuide`, `InsertGuide`). Each method is proved to do what a function on the value `Tables` says.
- **Every route that writes** is two members:
  - a function from the old tables and the request to an `Outcome` (the response and the new tables);
  - a handler method on `Database` that runs the statements in the source's order.

  The method's `ensures` ties its answer and the new state to that function. Lemmas then state what the route promises about the function:
  - which status each input gets, and the error message;
  - what row is inserted or changed, and that nothing else changes;
  - that the password never appears in an answer;
  - that signing up and then signing in succeeds.

  Routes that only read are functions.
- **The request** is what the handler reads from it:
  - each JSON field is an `Option<string>`; JavaScript truthiness and PHP `isset`/`empty` are written out;
  - the HTTP method, for the PHP and Next.js routes;
  - `fault` says that a statement failed, which leads to the route's own error answer (a PDO exception, a `prepare` that returns false, a rejected Express query); a failed connection is not modelled (see "## Left out");
  - the hasher (`bcrypt` / `password_hash`) is a value `Hasher` with `hash` and `verify` left unspecified. Only round-trip lemmas assume `verify(p, hash(p))`.
- **The pages** with state become classes with the component's state variables as fields and one method per handler:
  - AuthContext, Navbar;
  - SignupPage, ChangePassword and the dashboard Profile page;
  - GuideVerification, GuideApprovals, Messages, manage-messages;
  - the admin Dashboard.

  What the handlers rely on is stated as functions with lemmas:
  - the role-to-path switches;
  - the filters of the admin lists;
  - the sort comparator;
  - the password checklist.

  The route guards and layouts, which only compute a view, are functions.

Shared text handling is written out and proved about in text.dfy, validation.dfy, php_config.dfy and php_values.dfy. This covers:
- JavaScript `trim`, `split`/`join`, `includes`, `toLowerCase` on ASCII letters, and lengths in UTF-16 code units;
- PHP `trim`, `stripslashes`, `htmlspecialchars`, `explode` with a limit, `intval` (with fractions and exponents), `empty`, and byte lengths;
- the reading of a numeral (numerals.dfy), which PHP's `intval` and MySQL's comparison of an INT column with a string share;
- the email and phone regular expressions, each related to a direct description of the language it accepts.

The PHP scripts are read as PHP 8.0 runs them: `htmlspecialchars` has the default flags ENT_COMPAT | ENT_HTML401 (a single quote is not encoded), mysqli reports errors by return values rather than exceptions, and a division by zero throws DivisionByZeroError. An uncaught error is the answer `Crashed`: PHP prints it in place of the JSON. PDO is left with emulated prepares (api/config/database.php:14-16 sets neither ATTR_EMULATE_PREPARES nor ATTR_STRINGIFY_FETCHES), under which pdo_mysql before PHP 8.1 fetches every column as a string: the PDO scripts send a user's id as a JSON string (`Store.Fetched`), while mysqli's `get_result` and mysql2 give a number (`Store.Columns`). The session's `user_id` holds that string too; it is modelled by the number it names, since `WHERE id = ?` reads it back as that number.

SQL string comparison is modelled as exact equality, as under a binary collation. The consequences are stated where they matter: the role `'guide'` matches none of the stored `'Guide'` rows, and `Admin` is not `admin`.

## Model

| member | source | states |
|---|---|---|
| Store.Find | server.js:404-410 | the first row a SELECT ... WHERE returns: it is a stored row satisfying the condition, and there is none exactly when no row satisfies it |
| Store.EmailNamesOneRow | setup_database.js:49 | under the UNIQUE email constraint, the row found by an email is the only row with that email |
| Store.IdNamesOneRow | setup_database.js:47 | under the primary key, the row found by an id is the only row with that id |
| Store.MapWhere | server.js:244-247 | an UPDATE before the constraints are checked rewrites rows and keeps the row count |
| Store.Update | server.js:244-247 | an UPDATE that succeeds rewrites exactly the matching rows by the change and leaves every other row, the guides and the next id alone; it fails exactly when the result breaks one of the modelled constraints (primary key, UNIQUE email, ENUM role) |
| Store.UpdateKeepingKeysSucceeds | server.js:308-317 | an UPDATE that keeps the id, email and a valid role of every matched row never violates a constraint |
| Store.UpdateOneRow | server.js:308-317 | an UPDATE whose condition picks one row by its key rewrites that row and no other, and succeeds when the id, email and a valid role stay |
| Store.Insert | server.js:367-375 | an INSERT succeeds exactly when the email is new and the role is an ENUM value; the new row gets the next AUTO_INCREMENT id and is appended, with an empty status |
| Store.ByEmailIffStored | server.js:357-363 | the lookup by email finds a row exactly when that email is stored |
| Store.SqlId | server.js:174-200 | an id sent as text names a row only when the whole text is one numeral (sign, digits, fraction, exponent) denoting a whole number that is not negative, and it names that number |
| Store.SqlIdReadsWholeNumerals | server.js:174-200 | every whole-text numeral denoting a non-negative whole number names that number, as MySQL's numeric comparison of the INT id with the string does |
| Store.SqlIdOfDigits | server.js:174-200 | a digit string, leading zeros included, names the number its digits denote |
| Store.SqlIdOfSignedText | server.js:174-200 | '+5' names 5; '-5' names no row, and '-0' names 0 |
| Store.SqlIdOfFraction | server.js:174-200 | '5.0' names 5, and a fraction with a non-zero digit names no row |
| Store.SqlIdOfExponent | server.js:174-200 | '1e1' names 10: the exponent scales the digits by a power of ten |
| Numerals.DecimalText | server.js:174-200 | the decimal text of a number is a non-empty digit string without a leading zero |
| Numerals.DecimalValueOfText | server.js:174-200 | reading the decimal text of a number gives the number back |
| Numerals.DecimalValueOfLeadingZero | server.js:174-200 | a leading zero does not change the value of a digit string |
| Numerals.DecimalValueOfAppend | api/admin/profile.php:9 | digits appended after a digit string scale its value by the power of ten of their count |
| Numerals.DecimalValueBelow | api/admin/profile.php:9 | a digit string is below the power of ten of its length |
| Numerals.DecimalValueZero | server.js:174-200 | digits read as 0 exactly when they are all zeros |
| Numerals.DigitPrefix | api/admin/profile.php:9 | the longest run of digits at the front of the text |
| Numerals.DigitPrefixOfDigits | api/admin/profile.php:9 | the run stops at the first character that is not a digit |
| Numerals.Exponent | api/admin/users.php:18 | an exponent is read only after 'e' or 'E', and otherwise the scale is 0 and nothing is consumed |
| Numerals.Fraction | api/admin/users.php:18 | fraction digits are read only after a decimal point |
| Numerals.Scan | api/admin/users.php:18 | the numeral read has at least one digit, and none is read from empty text or text not starting with a digit, '.', '+' or '-' |
| Numerals.ScanMagnitude | api/admin/users.php:18 | after the sign a numeral has at least one digit, and none is read from text not starting with a digit or '.' |
| Numerals.ScanDigits | api/admin/users.php:18 | digits followed by text that does not carry the numeral on read as those digits, unscaled |
| Numerals.ScanSignedText | api/admin/users.php:18 | a sign before the digits gives the numeral that sign |
| Numerals.ScanFraction | api/admin/users.php:18 | the digits after the point join the digits, and the scale is minus their count |
| Numerals.ScanExponent | api/admin/users.php:18 | the exponent after 'e' becomes the scale |
| Numerals.Truncated | api/admin/users.php:18 | the truncated value has the numeral's sign |
| Numerals.TruncatedRoundsTowardZero | api/admin/users.php:18 | truncation is exact for a scale of zero or more, and otherwise the largest whole magnitude not above the numeral's |
| Numerals.WholeValue | server.js:174-200 | the whole value, when there is one, is the truncated value |
| Numerals.WholeValueDenotes | server.js:174-200 | a whole value is exactly what the numeral denotes |
| Numerals.NoWholeValue | server.js:174-200 | a numeral without a whole value denotes no whole number |
| Numerals.DenotesDigits | server.js:174-200 | unscaled digits denote, truncate to and have as whole value their decimal value |
| Numerals.FractionValue | api/admin/users.php:18 | a fraction is cut off by truncation, and leaves a whole value exactly when its digits are all zeros |
| Numerals.ExponentValue | api/admin/users.php:18 | a non-negative exponent multiplies the value by that power of ten, exactly |
| Numerals.DenotesUnique | server.js:174-200 | a numeral denotes at most one whole number |
| Store.SqlIdOfDecimalText | server.js:174-200 | reading back the decimal text of an id gives the id |
| Store.Fail | server.js:99 | an error answer has the status and exactly the body field error holding the message |
| Store.Done | project/server.js:130-136 | a success answer has the status and exactly the body field message; it is kept beside Store.Fail because the routes name the two answers separately |
| Store.Columns | server.js:439 | the selected columns of a row form a JSON object with exactly those keys |
| Store.ObjectList | server.js:494-521 | a list of rows becomes a JSON array with one object per row, in row order, each holding the selected columns |
| Store.Fetched | api/config/database.php:14-16 | a PDO-fetched row has exactly the selected columns |
| Store.FetchedList | api/admin/users.php:73-79 | `fetchAll` gives one fetched object per row, in row order |
| Store.FetchedDiffersOnlyInId | api/config/database.php:14-16 | a PDO-fetched row equals the native one but for its id, a string in place of mysql2's number, which names the same row again |
| Store.Database.constructor | setup_database.js:46-57 | the tables start empty and satisfy their constraints |
| Store.Database.Select | server.js:404-410 | the SELECT method returns the first matching row, as Find says |
| Store.Database.RunUpdate | server.js:244-247 | the UPDATE method reports success exactly when Update succeeds, takes on its result, and otherwise leaves the tables unchanged |
| Store.Database.RunInsert | server.js:367-375 | the INSERT method returns the new id and state of Insert, or none and the old state when a constraint fails |
| Store.Database.HasGuide | server.js:572-577 | SELECT id FROM guides WHERE user_id = ? is non-empty exactly when that user id is in guides |
| Store.Database.InsertGuide | server.js:578-582 | INSERT INTO guides appends the user id and changes nothing else |
| Text.IncludesIffOccurs | src/pages/admin/Dashboard.tsx:428-430 | includes holds exactly when the term occurs at some offset of the text |
| Text.EmptyIncludedEverywhere | src/pages/admin/guide-verification.tsx:93-94 | every text includes the empty term, so an empty search hides nothing |
| Text.Lower | src/context/AuthContext.tsx:123 | `toLowerCase` on ASCII letters, character by character; LowerIdempotent and the LowerOf lemmas state its values on the roles |
| Text.LowerIdempotent | src/context/AuthContext.tsx:123 | lower-casing twice is lower-casing once |
| Text.JsTrim | src/pages/admin/Bookings.tsx:99 | JavaScript's `trim`; JsTrimStart, JsTrimEnd and TrimEmptyIffBlank state what it removes |
| Text.JsTrimStart | src/pages/admin/Bookings.tsx:99 | trimStart removes only JavaScript white space, and the result starts with none |
| Text.JsTrimEnd | src/pages/admin/Bookings.tsx:99 | trimEnd removes only JavaScript white space, and the result ends with none |
| Text.TrimEmptyIffBlank | src/pages/admin/Bookings.tsx:99 | trim gives the empty string exactly when the term is all white space |
| Text.IndexOf | server.js:146 | the position of the first separator, or the length when it does not occur |
| Text.Split | server.js:146 | split always gives at least one part, so the first name is always defined |
| Text.JoinSplit | server.js:146-147 | joining the split parts with the separator gives the original name back |
| Text.FirstWord | server.js:146 | the first name is a prefix of the full name without a space |
| Text.AfterFirstSpace | server.js:147 | the last name is what follows the first space, or empty when there is none |
| Text.SplitHeadAndRest | server.js:146-147 | the first part of split is the first word and the rest joined by spaces is what follows the first space |
| Text.ExplodeTwo | api/auth/login.php:49-51 | explode with limit 2 gives one or two parts |
| Text.ExplodeTwoAgrees | api/auth/login.php:49-51 | the PDO login's first and last name equal the Express server's for every full name |
| Text.Utf16Length | server.js:344 | the JavaScript length counts at least one UTF-16 unit per character |
| Text.Utf8Length | src/api/signup.php:32 | PHP strlen counts at least one UTF-8 byte per character |
| Text.AsciiLengths | src/api/signup.php:32 | for ASCII text both lengths are the number of characters |
| Text.Utf16LengthAppend | server.js:344 | the UTF-16 length adds up over concatenation |
| Validation.ValidEmail | server.js:220 | the email regular expression as a predicate; ValidEmailIffPattern states what it accepts |
| Validation.ValidEmailIffPattern | server.js:220 | the email regular expression accepts exactly the strings without white space, with one '@' and a domain holding an inner '.' |
| Validation.ValidEmailMatches | server.js:220 | every string of that description matches the pattern |
| Validation.PatternIsValid | server.js:220 | every match of the pattern fits that description |
| Validation.ValidPhone | server.js:226 | the phone regular expression as a predicate; ValidPhoneIffPattern states what it accepts |
| Validation.ValidPhoneIffPattern | server.js:226 | the phone regular expression accepts exactly an optional '+' followed by at least ten digits, white space or dashes |
| Validation.PcrePhoneImpliesJsPhone | src/api/signup.php:37 | every phone number the PHP pattern accepts is accepted by the JavaScript one |
| Validation.JsPhoneStrictlyWeaker | src/api/signup.php:37 | ten no-break spaces pass the JavaScript phone pattern but not PHP's |
| Validation.Utf8AtLeastUtf16 | src/api/change_password.php:24 | a UTF-8 encoding is never shorter than the UTF-16 one |
| Validation.JsLengthImpliesPhpLength | src/api/signup.php:32 | every password the JavaScript backends find long enough passes PHP's length rule |
| Validation.LengthRulesDiverge | src/api/signup.php:32 | four accented letters pass PHP's length rule but fail the JavaScript one |
| PhpConfig.TrimLeft | src/api/config.php:28 | the left trim removes only PHP trim characters and leaves none in front |
| PhpConfig.TrimRight | src/api/config.php:28 | the right trim removes only PHP trim characters and leaves none at the end |
| PhpConfig.PhpTrimIsSlice | src/api/config.php:28 | trim returns a slice of the input that neither starts nor ends with a trim character, after a run of trim characters |
| PhpConfig.StripAddSlashes | src/api/config.php:29 | stripslashes undoes addslashes |
| PhpConfig.StripSlashesNoBackslash | src/api/config.php:29 | text without backslashes passes stripslashes unchanged |
| PhpConfig.NoMarkupAfterEscape | src/api/config.php:30 | after htmlspecialchars no '<', '>' or '"' is left |
| PhpConfig.AmpersandsBeginEntities | src/api/config.php:30 | every '&' of the escaped text begins an entity htmlspecialchars writes |
| PhpConfig.EscapeIdentity | src/api/config.php:30 | text without the characters htmlspecialchars rewrites is unchanged |
| PhpConfig.SanitizeFixesCleanText | src/api/config.php:27-31 | sanitize_input leaves clean text (no trim characters at either end, no backslash, nothing to escape) unchanged |
| PhpConfig.SanitizeInput | src/api/config.php:27-31 | `sanitize_input`: trim, stripslashes, then htmlspecialchars; SanitizeIsHtmlSafe, SanitizeFixesCleanText and SanitizeKeepsSingleQuotes state what it gives |
| PhpConfig.SanitizeIsHtmlSafe | src/api/config.php:27-31 | the result of sanitize_input holds no '<', '>' or '"', and every '&' in it begins an entity |
| PhpConfig.SanitizeOneChar | src/api/config.php:27-31 | one character that is neither trimmed nor a backslash comes out as htmlspecialchars writes it |
| PhpConfig.SanitizeKeepsSingleQuotes | src/api/config.php:30 | under PHP 8.0's default flags a single quote passes unchanged and a double quote becomes &quot; |
| PhpConfig.SanitizeNotIdempotent | src/api/config.php:27-31 | sanitizing "&" followed by plain text twice gives "&amp;amp;" and that text: the entity made the first time is escaped again |
| PhpConfig.SanitizeOfAmpersandText | src/api/config.php:27-31 | an '&' followed by plain text is the only character encoded |
| PhpValues.SkipSpace | api/admin/profile.php:9 | intval skips only leading white space and stops at the first other character |
| PhpValues.PhpIntval | api/admin/profile.php:9 | PHP's `intval` of a string: the numeral after leading white space, truncated; IntvalOfScan and the IntvalOf lemmas state its values |
| PhpValues.IntvalOfScan | api/admin/profile.php:9 | after leading white space intval reads the longest numeral and truncates it toward zero |
| PhpValues.IntvalOfDecimalText | api/admin/users.php:18 | (int) of the decimal text of a number, followed by text that does not carry the numeral on (no digit, '.', 'e' or 'E'), is that number |
| PhpValues.IntvalOfNegativeText | api/admin/users.php:18 | the same with a minus sign gives the negative number |
| PhpValues.IntvalOfFraction | api/admin/users.php:18 | a fraction is cut off: '5.9' reads as 5 |
| PhpValues.IntvalOfExponent | api/admin/users.php:18 | an exponent scales the number: '1e1' reads as 10 |
| PhpValues.IntvalOfText | api/admin/profile.php:9 | text that does not start, after white space, with a sign, a digit or '.' reads as 0 |
| ListOps.Filter | src/pages/admin/Messages.tsx:64-84 | filter keeps every entry satisfying the condition and only those |
| ListOps.FilterKeepsOrder | src/pages/admin/Messages.tsx:64-84 | filter returns an order-preserving subsequence whose entries all satisfy the condition |
| ListOps.FilterComplete | src/pages/admin/Messages.tsx:64-84 | no entry that satisfies the condition is lost |
| ListOps.FilterMembership | src/pages/admin/Messages.tsx:64-84 | an entry is in the result exactly when it is in the list and satisfies the condition |
| ListOps.FilterAll | src/pages/admin/Bookings.tsx:99-101 | a condition every entry satisfies filters nothing out |
| ListOps.FilterTwice | src/pages/admin/GuideVerification.tsx:46-65 | two filters in a row are one filter by both conditions |
| ListOps.FilterExtensional | src/pages/admin/GuideVerification.tsx:46-65 | filters that agree on every entry give the same list |
| ListOps.StagedIsOneFilter | src/pages/admin/GuideVerification.tsx:46-65 | applying the search stage and then the status stage, each when switched on, is one filter by both gated conditions |
| ListOps.StagedOutcomes | src/pages/admin/GuideVerification.tsx:46-65 | an entry is shown exactly when it is in the list and passes every stage that is switched on |
| ListOps.MapWhere | src/pages/admin/GuideVerification.tsx:82-84 | the map that changes the matching entries keeps the length, changes those entries and keeps the rest |
| ListOps.MapWhereCommutesWithFilter | src/pages/admin/GuideApprovals.tsx:117-129 | when neither the selection nor the change alters what the filter decides, changing then filtering equals filtering then changing |
| RootServer.FormatUser | server.js:146-158 | the auth.php answer has exactly the keys id, email, role, first_name, last_name and phone_number |
| RootServer.AuthPhp | server.js:94-171 | the auth.php route: the field and role checks, the email lookup, the bcrypt-prefix test and the verify, then FormatUser; its outcomes are stated by AuthPhpUniformRejection and AuthPhpSuccess |
| RootServer.AuthPhpUniformRejection | server.js:115-142 | auth.php answers 401 "Invalid credentials" exactly when the email is unknown, the stored hash does not start with the bcrypt prefix, or the password does not verify, and 200 otherwise |
| RootServer.FormatUserFields | server.js:146-158 | the login's user object holds the lower-cased role, the name before the first space, the rest after it, and no password |
| RootServer.AuthPhpSuccess | server.js:144-163 | a 200 from auth.php names a stored row with that email whose hash the password verifies; the role is lower-cased, the name is split at the first space, and no password is sent |
| RootServer.ProfileGet | server.js:174-200 | the GET profile route: 400 without an id, the lookup by SqlId, 404 or the profile columns; its outcomes are stated by ProfileGetOutcomes |
| RootServer.ProfileGetOutcomes | server.js:174-200 | GET profile answers 400 without an id and 200 exactly when a stored row has that id; the body is that row's profile columns without the password |
| RootServer.ProfileColumnsHidePassword | server.js:174-200 | the profile columns leave out the password |
| RootServer.ProfilePut | server.js:204-263 | PUT profile keeps the table constraints |
| RootServer.ProfilePutRefusesTakenEmail | server.js:234-240 | an email that another row already holds is answered 400 "Email already taken by another user", with no change |
| RootServer.ProfilePutChangesOnlyThatRow | server.js:244-259 | after a 200 exactly the row with that id has the new name, email and phone, and every other row and the guides are unchanged |
| RootServer.ProfilePutNeverConflicts | server.js:234-247 | once no other row holds the email, the UPDATE cannot break the UNIQUE constraint |
| RootServer.ProfilePutUnknownId | server.js:250-259 | an id that names no row changes nothing and still answers 200 with only the success message |
| RootServer.ProfilePutHandler | server.js:204-263 | the Express handler's answer and the new tables are those of ProfilePut |
| RootServer.ChangePassword | server.js:268-322 | change-password keeps the table constraints |
| RootServer.ChangePasswordShortRefused | server.js:283-285 | a new password shorter than 8 UTF-16 units is refused with 400 before any lookup, whatever the tables hold |
| RootServer.ChangePasswordEffect | server.js:290-317 | only a 200 changes the tables; a 401 is "Current password is incorrect"; a 200 means the row with that id verified the current password and now holds the hash of the new one, and every other row is unchanged |
| RootServer.ChangePasswordHandler | server.js:268-322 | the Express handler's answer and the new tables are those of ChangePassword |
| RootServer.Signup | server.js:327-380 | signup keeps the table constraints |
| RootServer.SignupEffect | server.js:333-375 | signup answers 201 exactly when every field is given, the email, password and phone pass their checks, no row holds the email and the role is an ENUM value; only then is one row appended, holding the hash of the password |
| RootServer.SignupRefusesRegisteredEmail | server.js:357-363 | a registered email is refused with 400 "Email already registered" and nothing is inserted |
| RootServer.SignupCheckOrder | server.js:338-352 | the email check comes before the length check, which comes before the phone check, each with its own message |
| RootServer.SignupHandler | server.js:327-380 | the Express handler's answer and the new tables are those of Signup |
| RootServer.SignupThenAuthPhp | server.js:94-170 | a user who has just signed up can sign in through auth.php with the same email and password |
| RootServer.Signin | server.js:385-444 | the signin route: the role check against the ENUM spelling, the lookup by email and role, the verify; its outcomes are stated by SigninSuccess and SigninRoleIsCaseSensitive |
| RootServer.SigninSuccess | server.js:385-444 | a 200 from signin means the role was Admin, Tourist or Guide and a stored row has that email and role; the body is that row without the password |
| RootServer.SigninRoleIsCaseSensitive | server.js:397-399 | the role "admin" in lower case is refused with 400 "Invalid role specified" |
| RootServer.CheckedUser | server.js:473-481 | the auth check answer has exactly the keys id, email, role, first_name, last_name and phone_number |
| RootServer.CheckedUserFields | server.js:475-482 | for a role inside the ENUM the auth check gives the role back exactly as stored, with the name split at the first space |
| RootServer.AuthCheck | server.js:449-490 | the auth check route: the id from the query, else from the header, then the lookup; its outcomes are stated by AuthCheckOutcomes |
| RootServer.AuthCheckOutcomes | server.js:449-490 | the query id wins over the header id; 401 exactly when there is no id or no row has it; a 200 gives that row with the role capitalised as stored and the name split at the first space |
| RootServer.ListUsers | server.js:494-521 | the admin users route: every stored row without the password, or 500 on a failed query; its outcomes are stated by ListUsersOutcomes |
| RootServer.ListUsersOutcomes | server.js:494-521 | the users list is 200 exactly when the query succeeds, with one object per stored row, in order, and no password |
| RootServer.ListGuides | server.js:524-550 | the admin guides route: the rows with role 'guide' joined with guides; its answer under exact comparison is stated by ListGuidesIsEmpty |
| RootServer.ListGuidesIsEmpty | server.js:524-550 | under exact comparison the query for role 'guide' matches no stored row, so the guides list is always empty |
| RootServer.GuideStatus | server.js:553-591 | the guide PATCH keeps the table constraints |
| RootServer.GuideStatusTouchesNoUser | server.js:565-583 | the PATCH changes no users row, because 'guide' matches no stored role; a 200 with status approved adds the id to guides when it is not there yet |
| RootServer.Occurrences | server.js:571-583 | the count of an id in guides is zero exactly when the id is absent |
| RootServer.ApprovalKeepsOneGuideRow | server.js:571-583 | after an approval the guide has exactly one guides row, if it had at most one before |
| RootServer.ApprovalIdempotent | server.js:553-591 | approving the same guide twice leaves the tables as approving once |
| RootServer.GuideStatusHandler | server.js:553-591 | the Express handler's answer and the new tables are those of GuideStatus |
| ProjectServer.ProfileUpdate | project/server.js:37-87 | the profile update keeps the table constraints |
| ProjectServer.ConflictUnreachable | project/server.js:62-70 | the duplicate check email = x AND email != x matches no row |
| ProjectServer.ProfileUpdateKeepsEmails | project/server.js:62-82 | the conflict answer never happens; no id, email, role or password changes; only rows already holding the submitted email are rewritten |
| ProjectServer.ProfileUpdateEchoesInput | project/server.js:73-82 | once the checks pass, the answer is 200 with the submitted name, email and phone |
| ProjectServer.ProfileUpdateHandler | project/server.js:37-87 | the handler's answer and the new tables are those of ProfileUpdate |
| ProjectServer.ChangePassword | project/server.js:90-141 | the password change by email keeps the table constraints |
| ProjectServer.ChangePasswordEffect | project/server.js:95-136 | only a 200 changes the tables; once the checks pass, 404 means the email is unknown; a 200 means that row verified the current password and now holds the hash of the new one |
| ProjectServer.ChangePasswordHandler | project/server.js:90-141 | the handler's answer and the new tables are those of ChangePassword |
| ProjectServer.SignupHandler | project/server.js:144-199 | this signup's answer and new tables are those of the root server's signup |
| ProjectServer.Signin | project/server.js:202-244 | the signin route of project/server.js: the lookup by email and the verify, without a role check; its outcomes are stated by SigninOutcomes |
| ProjectServer.SigninOutcomes | project/server.js:202-244 | 401 "Invalid credentials" exactly when the email is unknown or the password does not verify; otherwise 200 with that row and no password |
| ProjectServer.SignupThenSignin | project/server.js:144-244 | a user who has just signed up can sign in with the same email and password |
| ProjectServer.RoleSigninImpliesSignin | project/server.js:202-244 | wherever the root server's role-checked signin answers 200, this signin gives the same answer |
| ProjectSrcServer.SignupHandler | project/src/server.js:30-85 | the handler's answer and new tables are those of the root server's signup |
| ProjectSrcServer.SecondSignupRefused | project/src/server.js:59-66 | a second signup with the email of a first that succeeded answers 400 "Email already registered" and inserts nothing |
| NextApi.Signup | src/pages/api/signup.ts:42-106 | the Next.js signup keeps the table constraints |
| NextApi.SignupMethodGate | src/pages/api/signup.ts:42-48 | OPTIONS answers 200 and every other method apart from POST answers 405, before any field is read |
| NextApi.SignupMatchesExpress | src/pages/api/signup.ts:54-106 | for POST the tables change as under the Express signup; its 200 is Express's 201, "Email already exists" is "Email already registered", and any failure is 500 "Database operation failed" |
| NextApi.SignupHandler | src/pages/api/signup.ts:42-106 | the route's answer and the new tables are those of Signup |
| NextApi.Signin | project/src/pages/api/signin.ts:39-89 | the Next.js signin route: the method gate, the email pattern, the lookup and the verify; its outcomes are stated by SigninOutcomes |
| NextApi.SigninOutcomes | project/src/pages/api/signin.ts:39-89 | the method gate; a malformed email is refused with 400 before any lookup; otherwise the status agrees with the Express signin, 401 is "Invalid email or password", and 200 is that answer without the password |
| MysqliApi.RecaseRole | src/api/auth.php:86 | ucfirst(strtolower(role)) keeps the length, upper-cases the first letter and lower-cases the rest |
| MysqliApi.RecaseKeepsSchemaRoles | src/api/auth.php:86 | the re-casing gives back every stored ENUM role unchanged |
| MysqliApi.FormatUser | src/api/auth.php:83-90 | the auth.php answer has exactly the keys id, email, role, first_name, last_name and phone_number |
| MysqliApi.AuthAsWritten | src/api/auth.php:3 | as written the script stops at the require with the fatal "Cannot redeclare sanitize_input()", printed under 200 with display_errors on and 500 with it off |
| MysqliApi.AuthNeverSendsJson | src/api/auth.php:3 | no request to the script as written is answered with JSON, not even OPTIONS, which the single-declaration script answers with an empty 200 |
| MysqliApi.Auth | src/api/auth.php:13-100 | auth.php with `sanitize_input` declared once: the method gate, the sanitized lookup, the verify and FormatUser; its outcomes are stated by AuthGate, AuthRejections and AuthSuccess |
| MysqliApi.AuthGate | src/api/auth.php:13-40 | OPTIONS answers an empty 200, other non-POST methods 405, a missing field 400, and otherwise the sanitized email is looked up |
| MysqliApi.AuthRejections | src/api/auth.php:56-80 | 401 "Invalid credentials" exactly when the email is unknown or the password does not verify, and 200 otherwise |
| MysqliApi.FormatUserFields | src/api/auth.php:83-90 | for a role inside the ENUM the user object holds the role as stored, the name before the first space, the rest after it, and no password |
| MysqliApi.AuthSuccess | src/api/auth.php:75-96 | a 200 names the stored row with that email whose hash the password verifies; the role is as stored, the name is split at the first space, and no password is sent |
| MysqliApi.AuthVerifiesRawPassword | src/api/auth.php:75-80 | a stored hash of the password signs in, given a sound hasher |
| MysqliApi.CreatedUser | src/api/signup.php:75-81 | the created user has exactly id, full_name, email, phone_number and role, and no password |
| MysqliApi.Signup | src/api/signup.php:1-99 | signup.php keeps the table constraints |
| MysqliApi.SignupFor | src/api/signup.php:27-90 | signup.php after the method and field checks keeps the table constraints |
| MysqliApi.SignupGate | src/api/signup.php:5-24 | OPTIONS answers an empty 200, other non-POST methods 405, a missing field 400 "All fields are required", and otherwise every field but the password is sanitized |
| MysqliApi.SignupEffect | src/api/signup.php:27-89 | the email, length, phone and duplicate checks in order with their messages; only a 201 changes the tables, appending one row with the hash of the password |
| MysqliApi.SignupHandler | src/api/signup.php:1-99 | the script's answer and the new tables are those of Signup |
| MysqliApi.Signin | src/api/signin.php:5-58 | signin.php: the method gate, the sanitized lookup and the verify; its outcomes are stated by SigninGate and SigninOutcomes |
| MysqliApi.SigninGate | src/api/signin.php:5-20 | 405 for a method other than POST, 400 for a missing field, otherwise the sanitized email is looked up |
| MysqliApi.SigninOutcomes | src/api/signin.php:24-49 | 401 "Invalid credentials" exactly when the email is unknown or the password does not verify; otherwise 200 with that row and no password |
| MysqliApi.SignupThenSignin | src/api/signin.php:24-49 | a user who has just signed up through signup.php can sign in through signin.php |
| MysqliApi.ProfileUpdate | src/api/profile_update.php:1-61 | profile_update.php keeps the table constraints |
| MysqliApi.ProfileUpdateFor | src/api/profile_update.php:24-58 | the update after the method and field checks keeps the table constraints |
| MysqliApi.ProfileUpdateGate | src/api/profile_update.php:5-21 | OPTIONS answers an empty 200, other non-PUT methods 405, a missing field 400, and otherwise the fields are sanitized |
| MysqliApi.ProfileUpdateKeepsEmails | src/api/profile_update.php:34-55 | the conflict answer never happens; no id, email, role or password changes; with a valid email and phone the answer is 200 and only rows already holding that email get the new name and phone |
| MysqliApi.ProfileUpdateHandler | src/api/profile_update.php:1-61 | the script's answer and the new tables are those of ProfileUpdate |
| MysqliApi.ChangePassword | src/api/change_password.php:1-59 | change_password.php keeps the table constraints |
| MysqliApi.ChangePasswordFor | src/api/change_password.php:24-56 | the change after the method and field checks keeps the table constraints |
| MysqliApi.ChangePasswordGate | src/api/change_password.php:5-21 | OPTIONS answers an empty 200, other non-PUT methods 405, a missing field 400, and otherwise the email is sanitized and the passwords are not |
| MysqliApi.ChangePasswordEffect | src/api/change_password.php:24-53 | a password shorter than 8 bytes answers 400; 404 exactly when the email is unknown; only a 200 changes the tables, storing the hash of the new password in the row whose hash the current one verified |
| MysqliApi.ChangePasswordHandler | src/api/change_password.php:1-59 | the script's answer and the new tables are those of ChangePassword |
| PdoAuth.Session.constructor | api/auth/login.php:45-46 | a new session holds no user id |
| PdoAuth.FormatUser | api/auth/login.php:53-62 | the login answer has exactly the keys id, email, role, first_name, last_name and phone_number; its id is the string PDO fetched, which names the same row again |
| PdoAuth.FormatUserNames | api/auth/login.php:49-60 | the login answer's first and last name are the Express server's split at the first space, its role is lower-cased, and it has no password |
| PdoAuth.Login | api/auth/login.php:7-75 | login.php: the POST gate, the required fields, the lookup by email, the verify, the session write and FormatUser; its outcomes are stated by LoginOutcomes |
| PdoAuth.LoginOutcomes | api/auth/login.php:7-62 | non-POST is 405; only a 200 sets the session; 401 is "Invalid credentials" exactly when the email is unknown or the password does not verify; a 200 stores that row's id in the session and answers with FormatUser of that row: its id as the fetched string, the role lower-cased and the name split at the first space, without the password |
| PdoAuth.LoginHandler | api/auth/login.php:7-62 | the script's answer and the new session are those of Login, whose 200 sends the id as the string PDO fetched |
| PdoAuth.ResetPassword | api/auth/reset-password.php:6-42 | reset-password keeps the table constraints |
| PdoAuth.ResetNeedsNoCredential | api/auth/reset-password.php:16-42 | with no token or current password asked, 404 exactly when the email is unknown; otherwise 200, with that row's password replaced by the hash of the new one |
| PdoAuth.ResetThenLogin | api/auth/reset-password.php:27-42 | after a reset the new password signs in, given a sound hasher |
| PdoAuth.ResetPasswordHandler | api/auth/reset-password.php:6-42 | the script's answer and the new tables are those of ResetPassword |
| PdoAuth.VerifyToken | api/middleware/auth.php:4-27 | verifyToken gives a user only for a session id with a working connection, without the password and with exactly the token columns as PDO fetches them |
| PdoAuth.VerifyTokenIff | api/middleware/auth.php:4-27 | verifyToken gives a user exactly when the session holds the id of a stored row, and then it is that row's columns |
| PdoAuth.LoginThenVerify | api/middleware/auth.php:4-27 | after a successful login verifyToken gives the signed-in row |
| AdminUsers.NobodyPassesAsWritten | api/admin/users.php:9 | the guard as written lets no session through, because stored roles are capitalised |
| AdminUsers.LowerOfRoles | api/admin/users.php:9 | of the stored roles only Admin lower-cases to admin |
| AdminUsers.IsAdminIffAdminSession | api/admin/users.php:7-13 | the corrected guard passes exactly when the session names a stored Admin row |
| AdminUsers.Normalize | api/admin/users.php:17-33 | the sort field is one of the allowed columns (default full_name), the order is ASC or DESC after upper-casing (default ASC), and page and limit are read by (int) with defaults 1 and 10 |
| AdminUsers.OrderIgnoresCase | api/admin/users.php:21-33 | desc is read as DESC, Asc as ASC, and an unknown sort field falls back to full_name |
| AdminUsers.BuildQuery | api/admin/users.php:39-64 | the building loop produces the list query, the count query and the parameters ListSql, CountSql and ListParams describe |
| AdminUsers.ParamsFitPlaceholders | api/admin/users.php:39-74 | the list query has one placeholder per parameter, and the count query two fewer |
| AdminUsers.CountQueryGetsFilterParams | api/admin/users.php:63-68 | dropping the last two parameters leaves exactly the filter parameters; those two are the limit and the offset |
| AdminUsers.SqlIgnoresValues | api/admin/users.php:39-62 | the SQL text depends only on whether each filter is on and on the sort, never on the values sent |
| AdminUsers.CeilDiv | api/admin/users.php:83 | ceil of total over limit is the least whole number of pages that holds the total |
| AdminUsers.CountSelected | api/admin/users.php:66-70 | the count is at most the number of rows |
| AdminUsers.CountIsSelectedRows | api/admin/users.php:66-75 | the count query counts exactly the rows the listing query selects |
| AdminUsers.PageOf | api/admin/users.php:62-64 | LIMIT and OFFSET give the rows from the offset on, at most the limit of them, and none past the end |
| AdminUsers.PagesJoin | api/admin/users.php:36 | two consecutive pages make up the page of their joint size, so paging loses and repeats no row |
| AdminUsers.IntString | api/admin/users.php:63-64 | an integer converts to a non-empty string |
| AdminUsers.BindAsStrings | api/admin/users.php:74 | execute with an array binds every value, the limit and offset included, as a string |
| AdminUsers.ListRunsIff | api/admin/users.php:62-64 | with the limit and offset bound as integers the listing statement runs exactly when both are non-negative |
| AdminUsers.QuotedLimitNeverRuns | api/admin/users.php:62-74 | with the values bound as strings the listing statement never runs |
| AdminUsers.ListUsersAsWritten | api/admin/users.php:7-91 | users.php as written, binding every parameter as a string through `execute($params)`; AdminListAlwaysFails states its answer past the guard |
| AdminUsers.AdminListAlwaysFails | api/admin/users.php:73-88 | as written, every request past the guard answers 500 with the database error, whatever its query string |
| AdminUsers.ListFrom | api/admin/users.php:62-88 | the part of users.php after the guard, for given bound parameters: the page query, the division by the limit and the JSON; ListFromOutcomes and QuotedLimitNeverRuns state its answers |
| AdminUsers.ListFromOutcomes | api/admin/users.php:36-91 | past the guard: a database error for a negative limit or offset, the printed DivisionByZeroError for a limit of 0, and otherwise 200 with the page of selected rows at the offset, each as PDO fetches it (id as a string), the count of all selected rows as total and the least number of pages holding them |
| AdminUsers.ListFromNeverRefuses | api/admin/users.php:15-91 | past the guard no answer is a 403 |
| AdminUsers.ListUsers | api/admin/users.php:7-91 | users.php with the limit and offset bound as integers: the admin guard, then ListFrom; its outcomes are stated by ListUsersOutcomes |
| AdminUsers.ListUsersOutcomes | api/admin/users.php:7-91 | 403 exactly when the session is not a stored Admin, and otherwise the answer ListFromOutcomes describes |
| AdminUsers.ListedRowsAreSelected | api/admin/users.php:73-79 | each listed user is a stored row meeting the role and search filters, sent as PDO fetches it: without its password and with its id as decimal text |
| AdminUsers.ZeroLimitIsFatal | api/admin/users.php:83 | a limit that reads as 0 stops the script at the division: PHP prints DivisionByZeroError under status 200 and no JSON is sent |
| AdminProfile.RowById | api/admin/profile.php:21-33 | the row found by id is a stored row with that id, and none is found exactly when no row has it |
| AdminProfile.RowByIdFindsStored | api/admin/profile.php:21-33 | a stored row is found by its own id |
| AdminProfile.RequestIdOfDecimalText | api/admin/profile.php:9-15 | the id read by intval from the decimal text of a number is that number |
| AdminProfile.FirstMissing | api/admin/profile.php:46-53 | no field is reported exactly when every required field is present and non-empty; a reported field is the first missing one in order |
| AdminProfile.CheckRequired | api/admin/profile.php:46-53 | the loop over the required fields reports the field FirstMissing names |
| AdminProfile.Profile | api/admin/profile.php:9-84 | the profile script keeps the table constraints |
| AdminProfile.ProfileIdBeforeMethod | api/admin/profile.php:9-82 | a missing or zero id is 400 "User ID is required" before the method is looked at; any method but GET and PUT is 405 |
| AdminProfile.ProfileGetAnswer | api/admin/profile.php:21-33 | GET changes nothing; 404 exactly when no row has the id; otherwise 200 with that row's profile columns as PDO fetches them (the id as a string), without the password |
| AdminProfile.RequiredPresent | api/admin/profile.php:46-53 | when no field is reported missing, full_name, email and phone_number are all sent |
| AdminProfile.ProfilePutMissingField | api/admin/profile.php:46-53 | a missing or empty required field answers 400 "Missing required field: " with its name, and nothing changes |
| AdminProfile.ProfileWrite | api/admin/profile.php:56-77 | the PUT after the required-field check: the UPDATE by id and the re-read row; its outcomes are stated by ProfilePutWritesAnything |
| AdminProfile.ProfilePutWritesAnything | api/admin/profile.php:56-77 | with the fields present, an email held by another row is a 500, and otherwise 200 with the row rewritten to the sent name, email and phone, without any format check, and the re-read row sent as PDO fetches it (the id as a string) |
| AdminProfile.ProfileHandler | api/admin/profile.php:9-84 | the script's answer and the new tables are those of Profile, whose user objects carry the id as the string PDO fetched |
| AdminProfile.ChangePassword | api/admin/change-password.php:13-78 | the admin password change keeps the table constraints |
| AdminProfile.ChangePasswordWrongCurrent | api/admin/change-password.php:60-65 | a current password that does not verify answers 400 "Current password is incorrect" and changes nothing |
| AdminProfile.ChangePasswordEffect | api/admin/change-password.php:60-74 | a verified current password answers 200 "Password updated successfully" and stores the hash of the new one in that row alone |
| AdminProfile.WrongPasswordStatusDiverges | api/admin/change-password.php:61-63 | for the same wrong current password this script answers 400 where the Express server answers 401 |
| AdminProfile.ChangePasswordHandler | api/admin/change-password.php:13-78 | the script's answer and the new tables are those of ChangePassword |
| Seeding.Merge | merge_admin_user.js:40-74 | the merge keeps the table constraints |
| Seeding.MergeExisting | merge_admin_user.js:45-61 | for an existing email, an Admin row is left alone, and otherwise only that row's role becomes the seeded one |
| Seeding.EmailIndex | merge_admin_user.js:45-61 | the position of the row holding a stored email |
| Seeding.MergeAbsent | merge_admin_user.js:64-74 | for a new email, exactly the seeded row is appended with the next id |
| Seeding.MergeIdempotent | merge_admin_user.js:40-74 | running the admin merge twice leaves the tables as running it once |
| Seeding.MergeAdminUser | merge_admin_user.js:40-74 | the script's statements leave the tables Merge gives |
| Seeding.InsertUser | insert_user.js:40-60 | insert_user keeps the table constraints |
| Seeding.InsertUserEffect | insert_user.js:40-60 | an existing email changes nothing; a new one appends the seeded row holding the hash of the seeded password |
| Seeding.InsertUserIdempotent | insert_user.js:40-60 | running insert_user twice leaves the tables as running it once |
| Seeding.InsertUserScript | insert_user.js:40-60 | the script's statements leave the tables InsertUser gives |
| ClientAuth.DashboardPath | src/context/AuthContext.tsx:122-134 | the dashboard path is /admin, /guide or /tourist dashboard exactly when the lower-cased role is admin, guide or tourist, and / otherwise |
| ClientAuth.DashboardPathIgnoresCase | src/context/AuthContext.tsx:122-134 | the path depends only on the lower-cased role |
| ClientAuth.OrElse | src/context/AuthContext.tsx:72 | a present non-empty error text is used, and otherwise the fallback |
| ClientAuth.LoginError | src/context/AuthContext.tsx:62-85 | login ends without an error exactly when the reply is JSON, ok and holds a user |
| ClientAuth.AuthContext.constructor | src/context/AuthContext.tsx:39-41 | the context starts with no user, loading, and no error |
| ClientAuth.AuthContext.IsAuthenticated | src/context/AuthContext.tsx:160 | the user is authenticated exactly when a user is set |
| ClientAuth.AuthContext.Mount | src/context/AuthContext.tsx:136-149 | on mount a stored user is taken, an unparsable entry is removed, and loading ends |
| ClientAuth.AuthContext.Login | src/context/AuthContext.tsx:46-89 | without an error the user is set, stored, and the page moves to the role's dashboard; with one nothing else changes; loading ends |
| ClientAuth.AuthContext.Logout | src/context/AuthContext.tsx:91-95 | logout clears the user and the stored entry and moves to / |
| RouteGuards.PrivateRoute | src/components/PrivateRoute.tsx:13-33 | the spinner shows exactly while loading, and every redirect replaces history |
| RouteGuards.PrivateRouteDecision | src/components/PrivateRoute.tsx:21-33 | no user goes to /login; a user whose role matches an allowed one, ignoring case, gets the children or the outlet; any other user goes to / |
| RouteGuards.PrivateRouteIgnoresCase | src/components/PrivateRoute.tsx:25-26 | allowing admin and allowing ADMIN give the same view |
| RouteGuards.ReadStoredUser | src/components/AdminRoute.tsx:11-31 | a stored user is read, and an unparsable entry is removed |
| RouteGuards.CurrentUser | src/components/AdminRoute.tsx:34 | the user read from storage wins over the context's |
| RouteGuards.AdminRoute | src/components/AdminRoute.tsx:5-70 | what AdminRoute renders: the spinner while loading, then the decision that AdminRouteDecision states |
| RouteGuards.AdminRouteDecision | src/components/AdminRoute.tsx:45-69 | no user goes to /login with the sign-in message; a role that lower-cases to admin gets the outlet; any other role goes to its dashboard |
| RouteGuards.LowerOfAdmin | src/components/AdminRoute.tsx:56 | the stored role Admin passes the case-insensitive test |
| RouteGuards.TouristRoute | src/components/TouristRoute.tsx:5-58 | what TouristRoute renders: /login, the outlet for the role Tourist exactly, or the role's dashboard; TouristRouteIsCaseSensitive states the role test |
| RouteGuards.TouristRouteIsCaseSensitive | src/components/TouristRoute.tsx:40-57 | only the role Tourist exactly gets the outlet; tourist in lower case is sent to the tourist dashboard with the permission message |
| RouteGuards.GuideRoute | src/components/GuideRoute.tsx:5-58 | what GuideRoute renders: /login, the outlet for the role Guide exactly, or the role's dashboard; GuideRouteIsCaseSensitive states the role test |
| RouteGuards.GuideRouteIsCaseSensitive | src/components/GuideRoute.tsx:40-57 | only the role Guide exactly gets the outlet; guide in lower case is sent to the guide dashboard with the permission message |
| RouteGuards.ProtectedRoute | src/components/ProtectedRoute.tsx:9-14 | no user is sent to /login with the sign-in message, and any user gets the outlet |
| RouteGuards.StoredProtectedRoute | project/src/components/ProtectedRoute.tsx:9-31 | what the stored-user ProtectedRoute does with the localStorage entry; its outcomes are stated by StoredProtectedRouteOutcomes |
| RouteGuards.StoredProtectedRouteOutcomes | project/src/components/ProtectedRoute.tsx:9-31 | the outlet shows exactly when a user is stored; a stored user missing fields is removed and sent to /signin |
| RouteGuards.AdminLayoutNavigation | src/components/AdminLayout.tsx:40-52 | the layout stays only for a role exactly admin, and otherwise navigates to / |
| RouteGuards.AdminLayoutRejectsStoredAdmin | src/components/AdminLayout.tsx:48-50 | a stored Admin passes AdminRoute but is sent to / by this layout |
| RouteGuards.DisplayName | src/components/AdminLayout.tsx:65 | the name shown is full_name, else name, else Admin, and never empty |
| RouteGuards.StoredAdminLayoutNavigation | project/src/components/AdminLayout.tsx:12-29 | this layout stays only for a stored role exactly Admin; no entry goes to /login and any other role to / |
| RouteGuards.AdminLayoutsDisagree | project/src/components/AdminLayout.tsx:21-24 | no user is kept by both admin layouts |
| RouteGuards.TouristLayout | src/components/TouristLayout.tsx:7-31 | what TouristLayout renders for the context user; its outcomes are stated by TouristLayoutOutcomes |
| RouteGuards.TouristLayoutOutcomes | src/components/TouristLayout.tsx:7-31 | the context never provides isLoading, so no spinner shows; the sidebar shows only for role tourist in lower case, and Tourist is sent to / |
| Navigation.DashboardPathExact | src/components/Sidebar.tsx:13-26 | the exact role switch gives each capitalised role its dashboard and / for anything else |
| Navigation.ProfilePathExact | src/components/Sidebar.tsx:29-42 | the exact role switch gives each capitalised role its profile page and / for anything else; it is kept beside DashboardPathExact because Sidebar.tsx writes two separate switches |
| Navigation.ExactSwitchAgainstContext | src/components/Navbar.tsx:115-128 | for stored roles the exact switch agrees with the context's; for admin in lower case they differ |
| Navigation.MenuItems | src/components/Sidebar.tsx:44-48 | the menu is Dashboard, Booked Tours under the dashboard path, and Profile |
| Navigation.ActiveItems | src/components/Sidebar.tsx:54 | the active items are exactly those whose path equals the current path |
| Navigation.ActiveItemsOutcomes | src/components/Sidebar.tsx:44-54 | for a known role at most one item is active; without one, Dashboard and Profile are both active on / and Booked Tours points to //booked-tours |
| Navigation.HandleNavigation | src/components/Navbar.tsx:76-92 | away from / the link goes home carrying the section, and on / it scrolls to the section |
| Navigation.Navbar.constructor | src/components/Navbar.tsx:15-17 | the bar starts signed out, with no user data and the menu closed |
| Navigation.Navbar.HandleLogout | src/components/Navbar.tsx:56-74 | logout removes the stored user, clears the state, closes the menu and replaces history with /signin |
| Navigation.Navbar.CheckAuth | src/components/Navbar.tsx:20-34 | a stored user is shown; no entry shows signed out; an unparsable entry logs out |
| PasswordRequirements.HasCharIffSome | src/components/PasswordRequirements.tsx:19-31 | a class test holds exactly when some character of the password is in the class |
| PasswordRequirements.AsList | src/components/PasswordRequirements.tsx:12-33 | the checklist has five requirements |
| PasswordRequirements.CountTrue | src/components/PasswordRequirements.tsx:35 | the met count is at most the number of requirements, and equal exactly when all are met |
| PasswordRequirements.MetCount | src/components/PasswordRequirements.tsx:35 | at most five requirements are met |
| PasswordRequirements.Progress | src/components/PasswordRequirements.tsx:36 | the progress is 20 per met requirement; for 0 to 5 met requirements this is exactly the double `(metCount / 5) * 100` gives in IEEE arithmetic (0, 20, 40, 60, 80, 100) |
| PasswordRequirements.ProgressFullIffAllMet | src/components/PasswordRequirements.tsx:45-52 | the progress is 100 exactly when all five requirements are met |
| PasswordRequirements.AppendKeepsMet | src/components/PasswordRequirements.tsx:12-33 | typing more characters never unmeets a requirement |
| PasswordRequirements.MetCountMonotone | src/components/PasswordRequirements.tsx:35 | typing more characters never lowers the met count |
| PasswordRequirements.ChecklistImpliesSignup | src/pages/SignupPage.tsx:56-63 | a password meeting the checklist meets the signup page's requirements |
| PasswordRequirements.SignupDoesNotImplyChecklist | src/pages/SignupPage.tsx:62 | a password whose only special character is '(' meets the signup requirements but only four of the checklist's five |
| PasswordRequirements.SampleFacts | src/pages/SignupPage.tsx:62 | the sample password is nine units long, has each class, and no checklist special character |
| SignupPage.InitialRequirementsFitEmptyPassword | src/pages/SignupPage.tsx:40-46 | the initial requirements are those of the empty password |
| SignupPage.SignupForm.constructor | src/pages/SignupPage.tsx:28-46 | the form starts empty with role Tourist, no requirement met, no error and not loading |
| SignupPage.SignupForm.HandleInputChange | src/pages/SignupPage.tsx:48-66 | only the named field changes; a password change recomputes the requirements, which keep tracking the password |
| SignupPage.SignupForm.HandleSubmit | src/pages/SignupPage.tsx:68-136 | the request is sent exactly when the passwords match and every requirement is met; otherwise the mismatch or requirements error; on 201 the user is stored and the page goes to /login |
| SignupPage.ShortPasswordNotSent | src/pages/SignupPage.tsx:56-86 | an ASCII password shorter than 8 characters is never sent |
| ChangePasswordPage.FirstCheckFailure | src/pages/admin/ChangePassword.tsx:35-50 | no user id, then a mismatch, then a short password, each with its message; none exactly when all pass |
| ChangePasswordPage.ChangePasswordView | src/pages/admin/ChangePassword.tsx:18-23 | without a signed-in user the page goes to /login, and otherwise shows the form |
| ChangePasswordPage.ChangePasswordForm.constructor | src/pages/admin/ChangePassword.tsx:9-16 | the form starts empty, not loading, with no error or success |
| ChangePasswordPage.ChangePasswordForm.HandleChange | src/pages/admin/ChangePassword.tsx:25-28 | only the named field changes |
| ChangePasswordPage.ChangePasswordForm.HandleSubmit | src/pages/admin/ChangePassword.tsx:30-100 | a failed check sends nothing and shows its message; otherwise the request carries the id and both passwords; success clears the form, and each failure shows its message |
| ChangePasswordPage.ServerRefusesOnlyEmptyCurrent | src/pages/admin/ChangePassword.tsx:52-68 | a request the page lets through is answered 400 by the Express server exactly when the current password is empty |
| ProfilePage.InitialProfile | project/src/pages/dashboard/Profile.tsx:24-33 | each profile field starts as the stored one, or empty |
| ProfilePage.MergedOutcomes | project/src/pages/dashboard/Profile.tsx:129-130 | the stored object after a save has the old keys and the four profile keys, holds the edited values, and keeps every other stored key |
| ProfilePage.MergedReadsBack | project/src/pages/dashboard/Profile.tsx:24-33 | reading the saved object back gives the edited profile |
| ProfilePage.ServerRefusesShortPassword | project/src/pages/dashboard/Profile.tsx:152-210 | the page sends a short new password, and the server refuses it with 400 without a change |
| ProfilePage.ProfileView.constructor | project/src/pages/dashboard/Profile.tsx:15-39 | the page starts from the stored profile, not editing, with no unsaved change, empty password fields and no message |
| ProfilePage.ProfileView.HandleProfileChange | project/src/pages/dashboard/Profile.tsx:56-63 | only the named field changes, and the change is unsaved |
| ProfilePage.ProfileView.HandleCancel | project/src/pages/dashboard/Profile.tsx:65-78 | a cancel the user does not confirm keeps the edit; otherwise the stored profile is restored and editing ends |
| ProfilePage.ProfileView.HandleProfileSubmit | project/src/pages/dashboard/Profile.tsx:94-150 | an accepted save merges the profile into storage, ends editing and shows the success message; otherwise storage is kept and the error is shown |
| ProfilePage.ProfileView.HandlePasswordChange | project/src/pages/dashboard/Profile.tsx:152-210 | a mismatch, an unreachable server or no stored user sends nothing, each with its message; otherwise the request carries the stored email and both passwords; success clears the fields |
| AdminDashboard.NextSort | src/pages/admin/Dashboard.tsx:159-166 | clicking the sorted column flips the order, and clicking another sorts it ascending |
| AdminDashboard.NextSortTwice | src/pages/admin/Dashboard.tsx:159-166 | clicking the same column twice restores the order |
| AdminDashboard.DashboardPage.constructor | src/pages/admin/Dashboard.tsx:103-105 | the page starts with no search, sorted by name ascending |
| AdminDashboard.DashboardPage.HandleSearch | src/pages/admin/Dashboard.tsx:155-157 | the search term is set and the sort is kept |
| AdminDashboard.DashboardPage.HandleSort | src/pages/admin/Dashboard.tsx:159-166 | the sort becomes NextSort of the old one, and the order stays asc or desc |
| AdminDashboard.StrCmp | src/pages/admin/Dashboard.tsx:432-451 | the comparison is -1, 0 or 1, and 0 exactly for equal strings |
| AdminDashboard.StrCmpFlip | src/pages/admin/Dashboard.tsx:432-451 | swapping the arguments negates the comparison |
| AdminDashboard.StrCmpTransitive | src/pages/admin/Dashboard.tsx:432-451 | the comparison is transitive |
| AdminDashboard.CompareFlip | src/pages/admin/Dashboard.tsx:432-451 | the comparator is antisymmetric for each column and order |
| AdminDashboard.CompareTransitive | src/pages/admin/Dashboard.tsx:432-451 | the comparator is transitive for each column and order |
| AdminDashboard.InsertPermutes | src/pages/admin/Dashboard.tsx:432-451 | inserting a booking adds exactly it |
| AdminDashboard.InsertSorted | src/pages/admin/Dashboard.tsx:432-451 | inserting into a sorted list keeps it sorted |
| AdminDashboard.SortSortsAndPermutes | src/pages/admin/Dashboard.tsx:432-451 | the sort returns a sorted permutation of its input |
| AdminDashboard.SortUnknownColumnKeepsOrder | src/pages/admin/Dashboard.tsx:432-451 | a column the comparator does not know leaves the order unchanged |
| AdminDashboard.DisplayedBookingsOutcomes | src/pages/admin/Dashboard.tsx:426-451 | the table shows a permutation of the matching bookings, a booking exactly when it matches the search, sorted by the chosen column and order |
| AdminDashboard.InitialOrderIsFilterOrder | src/pages/admin/Dashboard.tsx:426-451 | under the initial sort by name the table keeps the bookings' own order |
| BookingsPage.FilterBookings | src/pages/admin/Bookings.tsx:97-110 | the search effect never adds or repeats a booking; FilterBookingsOutcomes states which bookings show |
| BookingsPage.FilterBookingsOutcomes | src/pages/admin/Bookings.tsx:97-110 | a blank search shows every booking; otherwise a booking shows exactly when it matches, in order |
| BookingsPage.BookingStatusColor | src/pages/admin/Bookings.tsx:122-135 | each of the four booking statuses has its own colour, and any other status is default |
| GuidePages.FilterGuides | src/pages/admin/GuideVerification.tsx:46-65 | the filter effect never adds or repeats a guide; FilterGuidesOutcomes states which guides show |
| GuidePages.FilterGuidesOutcomes | src/pages/admin/GuideVerification.tsx:46-65 | a guide shows exactly when it matches the search, if any, and has the chosen status, unless all; in order |
| GuidePages.SetGuideStatus | src/pages/admin/GuideVerification.tsx:82-84 | exactly the guides with that id get the new status, and the rest are kept |
| GuidePages.GuideVerificationPage.constructor | src/pages/admin/GuideVerification.tsx:19-24 | the page starts with no guides, no search, the pending filter and no error |
| GuidePages.GuideVerificationPage.ApplyFilters | src/pages/admin/GuideVerification.tsx:46-65 | the shown list becomes the filter of the guides, and nothing else changes |
| GuidePages.GuideVerificationPage.HandleVerification | src/pages/admin/GuideVerification.tsx:67-88 | an ok reply sets the guide's status; a refused or failed request keeps the list and shows its error |
| GuidePages.VerifiedGuideLeavesPendingView | src/pages/admin/GuideVerification.tsx:46-88 | a guide just approved or rejected no longer shows under the pending filter |
| GuidePages.FilteredGuideCards | src/pages/admin/guide-verification.tsx:92-97 | the filtered list never adds or repeats a card; FilteredGuideCardsOutcomes states which cards show |
| GuidePages.FilteredGuideCardsOutcomes | src/pages/admin/guide-verification.tsx:92-97 | a card shows exactly when its name or email matches, ignoring case, and its status is the chosen one, unless all; the phone plays no part |
| GuidePages.FilterApplications | src/pages/admin/GuideApprovals.tsx:93-105 | the filter effect never adds or repeats an application; FilterApplicationsOutcomes states which applications show |
| GuidePages.FilterApplicationsOutcomes | src/pages/admin/GuideApprovals.tsx:93-105 | a blank search shows every application; otherwise exactly the matching ones, in order |
| GuidePages.SetApplicationStatus | src/pages/admin/GuideApprovals.tsx:117-129 | exactly the applications with that id get the new status |
| GuidePages.SetStatusKeepsFilter | src/pages/admin/GuideApprovals.tsx:117-147 | changing a status and then filtering equals filtering and then changing |
| GuidePages.GuideApprovalsPage.constructor | src/pages/admin/GuideApprovals.tsx:37-39 | the page starts with the applications shown in full and no search |
| GuidePages.GuideApprovalsPage.ApplyFilter | src/pages/admin/GuideApprovals.tsx:93-105 | the shown list becomes the filter of the applications |
| GuidePages.GuideApprovalsPage.HandleApprove | src/pages/admin/GuideApprovals.tsx:117-129 | both lists get the Approved status for that id, and the shown list stays the filter of the full one |
| GuidePages.GuideApprovalsPage.HandleReject | src/pages/admin/GuideApprovals.tsx:135-147 | both lists get the Rejected status for that id, and the shown list stays the filter of the full one |
| GuidePages.ApplicationStatusColor | src/pages/admin/GuideApprovals.tsx:153-164 | each of the three application statuses has its own colour, and any other status is default |
| MessagePages.FilterMessages | src/pages/admin/Messages.tsx:64-84 | the filter effect never adds or repeats a message; FilterMessagesOutcomes states which messages show |
| MessagePages.FilterMessagesOutcomes | src/pages/admin/Messages.tsx:64-84 | a message shows exactly when it matches the search, if any, and has the chosen status, unless all; in order |
| MessagePages.SetMessageStatus | src/pages/admin/Messages.tsx:86-107 | exactly the messages with that id get the new status |
| MessagePages.MessagesPage.constructor | src/pages/admin/Messages.tsx:37-42 | the page starts with no messages, no search, the all filter and no error |
| MessagePages.MessagesPage.ApplyFilters | src/pages/admin/Messages.tsx:64-84 | the shown list becomes the filter of the messages |
| MessagePages.MessagesPage.HandleStatusChange | src/pages/admin/Messages.tsx:86-107 | an ok reply sets the message's status; a refused or failed request keeps the list and shows its error |
| MessagePages.DummyIdsArePositions | src/pages/admin/manage-messages.tsx:38-43 | the sample messages are numbered by position from 1 |
| MessagePages.ManageMessagesPage.constructor | src/pages/admin/manage-messages.tsx:24-49 | the page starts with no guide selected, an empty message, no messages and the sample guides |
| MessagePages.ManageMessagesPage.SelectGuide | src/pages/admin/manage-messages.tsx:51-56 | selecting a different guide loads the sample messages; selecting the guide already selected keeps the conversation |
| MessagePages.ManageMessagesPage.SetMessage | src/pages/admin/manage-messages.tsx:158 | typing sets the message text alone |
| MessagePages.ManageMessagesPage.HandleSendMessage | src/pages/admin/manage-messages.tsx:58-69 | a non-blank message to a selected guide is appended with the next position as id and clears the text; otherwise nothing changes |
| MessagePages.BlankIsNotSent | src/pages/admin/manage-messages.tsx:59 | the trimmed message is non-empty exactly when the text is not all white space |
| MessagePages.PositionsAreDistinct | src/pages/admin/manage-messages.tsx:60-61 | ids numbered by position are distinct |

## Left out

- Transport: HTTP parsing, CORS headers, connection pools, static serving, the catch-all routes and the health-check scripts are not modelled. `send_json_response` and `exit` are modelled as the handler returning its answer.
- Hashing: bcrypt and `password_hash` are an uninterpreted `Hasher`. Only round-trip lemmas assume that a password verifies against its own hash.
- PHP's `FILTER_VALIDATE_EMAIL` is a parameter predicate, since its grammar is PHP's own. `NODE_ENV` is the boolean `devMode` parameter of the root signin.
- Concurrency between requests is not modelled: each handler runs alone on the tables.
- Collation: MySQL's default collation compares strings ignoring case; the model compares exactly, as under a binary collation.
- Store.Insert: holds under a binary collation only. Under the default collation of setup_database.js:49,52 the UNIQUE email index refuses an email that differs from a stored one only in case, and the ENUM column accepts a role that differs from 'Admin', 'Guide' or 'Tourist' only in case and stores it in the ENUM's spelling; the model inserts the first and refuses the second.
- Store.Database.RunInsert: inherits the binary-collation reading of Store.Insert.
- RootServer.SignupEffect: the 201 holds exactly when the email is new and the role an ENUM value under a binary collation only. Under the default collation `SELECT ... WHERE email = ?` (server.js:357-363) finds a stored 'Alice@x.com' for 'alice@x.com' and answers 400 "Email already registered", where the model answers 201; a role 'tourist' sent to the API is stored as 'Tourist', where the model answers 500.
- MysqliApi.SignupEffect: the same binary-collation reading as RootServer.SignupEffect, for the email lookup and the INSERT of signup.php.
- NextApi.SignupMatchesExpress: it equates the Next.js signup with the Express one, so both share the binary-collation reading of RootServer.SignupEffect.
- RootServer.ListGuidesIsEmpty: holds under a binary collation only. Under MySQL's default case-insensitive collation `role = 'guide'` matches every 'Guide' row, and the list holds them all.
- RootServer.GuideStatusTouchesNoUser: holds under a binary collation only. Under the default collation the PATCH's `UPDATE ... WHERE id = ? AND role = 'guide'` rewrites that guide's row.
- MysqliApi.ProfileUpdateKeepsEmails: holds under a binary collation only. Under the default collation `UPDATE users SET full_name = ?, email = ?, phone_number = ? WHERE email = ?` also matches a stored email that differs only in case, so submitting 'alice@x.com' rewrites the row holding 'Alice@x.com', and its email changes to the submitted spelling.
- ProjectServer.ProfileUpdateKeepsEmails: holds under a binary collation only, for the same reason: its `UPDATE ... WHERE email = ?` matches a stored email that differs only in case, and rewrites that row's email to the submitted spelling.
- Text.Lower: folds ASCII letters only. JavaScript's `toLowerCase` folds every Unicode letter ("JOSÉ" becomes "josé"), so every filter built on `MatchesIgnoringCase` misses matches that differ in a non-ASCII letter's case. PHP 8.0's `strtolower` under the default C locale is ASCII-only, as modelled.
- Store.Update: the widths of setup_database.js:48-52 (VARCHAR(100) for `full_name` and `email`, VARCHAR(20) for `phone_number`) are not table constraints in the model. Under strict SQL mode MySQL refuses an over-long value with "Data too long", which the routes answer with their 500; the model stores it. Nothing in the routes bounds these lengths: the phone pattern has no upper limit.
- Store.Insert: the same column widths are not checked, so an INSERT with a 21-character phone succeeds in the model where strict MySQL refuses it.
- Store.Database.RunUpdate: inherits the unchecked widths of Store.Update.
- Store.Database.RunInsert: inherits the unchecked widths of Store.Insert.
- Store.SqlId: only a text that is one numeral from end to end names a row. MySQL also reads the leading number of a text with blanks around it or other text after it ("5abc", " 5"), with a warning in a SELECT and an error under strict mode in an UPDATE; the model names no row for such text. Ids beyond double precision are compared exactly.
- The `guides` table: setup_database.js creates only `users`. The model has a `guides` table, so the guides list of server.js (its LEFT JOIN guides) and the guide PATCH run; against the database as created both fail with a 500. Store.Database.HasGuide and Store.Database.InsertGuide describe a table the setup script does not create.
- Connections: a failed connection is not modelled. In src/api/config.php:15-18 it ends the script with `die`, as plain text under status 200. In api/config/database.php:17-24 it answers 500 "Database connection failed". Both happen at the `require`, before the OPTIONS answer, the method check and the field checks, so they come before every branch of MysqliApi.Auth, MysqliApi.Signup, MysqliApi.Signin, MysqliApi.ProfileUpdate, MysqliApi.ChangePassword, PdoAuth.Login, PdoAuth.ResetPassword, PdoAuth.VerifyToken, AdminUsers.ListUsers, AdminProfile.Profile and AdminProfile.ChangePassword. In the model `fault` comes after those checks.
- Ordering (AdminUsers.ListFromOutcomes, RootServer.ListUsersOutcomes): the `ORDER BY full_name` of the Express users list, the `ORDER BY created_at` of the guides list and the `ORDER BY` of api/admin/users.php are not modelled. The rows come in table order. The LEFT JOIN columns of the guides list are not modelled.
- The `status` column: the `users` table that setup_database.js creates has none, but the guide PATCH of server.js writes one. The model gives every row a `status`, empty for new rows; against the table as created, that UPDATE would fail with a 500.
- Timestamps: `created_at`, `updated_at` and the ISO dates the login answers add are left out of the rows and answers.
- AdminUsers.CountSelected: the `LIKE` wildcards of the user search are read as plain substring tests. The count as a string and the float result of `ceil` become integers.
- AdminUsers.ListUsersOutcomes: the page is cut from the selected rows in table order, since `ORDER BY $sort $order` is not modelled, and `created_at` is left out of each listed row.
- PhpValues.PhpIntval: a numeral beyond the range of a PHP integer saturates at `PHP_INT_MAX` (or its negative) in PHP; the model's integers are unbounded. A numeral with a fraction or an exponent is read by PHP as a double, and rounding that double is not modelled: the model truncates the exact value.
- PhpValues.IntvalOfDecimalText: covers only a tail that does not carry the numeral on (no digit, '.', 'e' or 'E'); the tails that do are the cases of PhpValues.IntvalOfFraction and PhpValues.IntvalOfExponent. Saturation at `PHP_INT_MAX` is not modelled.
- PhpValues.IntvalOfNegativeText: the same restriction of the tail as PhpValues.IntvalOfDecimalText.
- PhpValues.IntvalOfText: text starting with '.' is left to PhpValues.IntvalOfScan, since ".5e1" reads as 5.
- Exception text: the text of database exceptions (`'Database error: ' . $e->getMessage()`) is the empty string. A fault is one boolean per handler, raised after the validations the source runs first, except in MysqliApi.ProfileUpdate and MysqliApi.ChangePassword.
- MysqliApi.ProfileUpdate, MysqliApi.ChangePassword: these have no `fault`. src/api/profile_update.php:34,44 and src/api/change_password.php:29,49 call `prepare` outside any `try`, so a failing statement ends the script without the JSON answer; that path is not modelled.
- `sanitize_input` is declared both in src/api/config.php and in src/api/auth.php. Every request to src/api/auth.php ends in the fatal redeclaration (MysqliApi.AuthAsWritten), so AuthContext `login`, which posts only there, never receives JSON. MysqliApi.Auth and the lemmas about it describe the script with one declaration; see "## Findings".
- AuthContext `register` is not modelled: no page calls it.
- A stored user without a `role` reads as the empty role; the source's `toLowerCase` would throw there. Non-string JSON values in storage are not modelled.
- Request values: every request field is an optional string. A JSON number, boolean, array or object sent as a name, email, password or id is not modelled.
- Navbar: it listens for an event name that differs from the one it dispatches, and for `storage` events. Only its handlers are modelled. The scroll arithmetic of `handleNavigation` is the action `ScrollHere`.
- List pages: the fetches that fill them, the refetch after an action in guide-verification, the booking amount and the dashboard chart data are not modelled. The lists are given.
- Profile page: the `beforeunload` handler and the `AUTH_STATE_CHANGED` dispatch are not modelled. An unparsable stored user, where `JSON.parse` throws during render, is not modelled. The field names of `handleProfileChange` are the four profile fields.
- ChangePassword page: the details of its JSON parsing are folded into the reply datatype.
- AdminDashboard.StrCmp: `localeCompare` is modelled as code-point order, and dates are compared as strings.

## Findings

| source | as written | input that shows it | evidently intended | confidence | as-written member | corrected member |
|---|---|---|---|---|---|---|
| src/api/auth.php:3 | the script declares `sanitize_input` at lines 104-110, which PHP binds when it compiles the file, and then requires config.php, which declares it again | any request, even OPTIONS | include the helper from config.php alone, so the script answers its JSON | high; not executed | MysqliApi.AuthNeverSendsJson | MysqliApi.AuthSuccess |
| api/admin/users.php:62-74 | `execute($params)` binds the limit and the offset as strings, and under PDO's default emulated prepares for MySQL they are written into the statement as quoted literals, `LIMIT '10' OFFSET '0'`, which MySQL refuses as a syntax error | an admin's request with no query string gets 500 "Database error: ..." | bind the limit and the offset as integers, so the page of rows is answered | high; not executed | AdminUsers.AdminListAlwaysFails | AdminUsers.ListFromOutcomes |
| api/admin/users.php:9 | the guard refuses unless the role `verifyToken` returns is exactly 'admin', but stored roles are the ENUM values 'Admin', 'Guide' and 'Tourist' | a session holding the id of a stored row with role Admin gets 403 | admit a session whose stored role is Admin, ignoring case | high for the as-written reading; not executed | AdminUsers.NobodyPassesAsWritten | AdminUsers.IsAdminIffAdminSession |
