# Individual Multisite Author — site-scoped author override

A Dafny model of the core of the WordPress plugin *Individual Multisite Author*
(`Ima_Class` in `individual-author.php`). On a multisite network every site
may give a user its own display name and biography. The plugin stores them as
two user-meta entries per site, under keys built from a fixed prefix and the
current blog id, writes them when a user profile is saved, and substitutes them
into the author read filters (`the_author`, `get_the_author_display_name`,
`get_the_author_description`) when they are non-empty.

Layout:

- `wrappers.dfy` — `Option`, used for PHP's `null` return.
- `site_keys.dfy` — module `SiteKeys`: PHP's decimal rendering of the blog id,
  the keys `ima_display_name_<id>` and `ima_description_<id>`, a parser that
  reads a key back, and the proof that keys are injective in (field, site).
- `user_meta.dfy` — module `UserMeta`: the host's user-meta store as a map
  `(user id, meta key) -> string` whose missing entries read as `""`, and a
  `UserMetaStore` class whose `Update` is `update_user_meta`.
- `individual_author.dfy` — module `IndividualAuthor`: `ImaClass` with its two
  key fields, the imperative save and the three pure read filters, and the
  lemmas relating them (round trip, site isolation, empty-means-absent).

Host inputs are parameters: `current_user_can('edit_user', …)` and
`check_admin_referer(…)` are booleans; `wp_unslash`, `pre_user_description` and
`pre_user_display_name` are uninterpreted `string -> string` functions; `$_POST`
is a `map<string, string>`; the global `$authordata` is an
`Option<AuthorData>` whose `id` is `None` when `ID` is unset; the blog id is
the constructor's argument. The read filters take the current meta table as a
value, since they only read it.

The save reports a `SaveOutcome` (`Saved`, `PermissionDenied`,
`InvalidRequest`); the PHP returns nothing in all three cases, and the outcome
only names which gate stopped it. A field absent from the POST data is stored
as the sanitising filter applied to `""` (individual-author.php:150-155): the
filter runs on both branches, so it is `""` only when the host filter maps
`""` to `""`. Here "the sanitising filter" stands for everything the host does
to the value before it lands in the store (see the last line of "Left out").

## Model

| member | source | states |
|---|---|---|
| `SiteKeys.Decimal` | individual-author.php:83-84 | the blog id in a key is written in decimal: at least one character, only digits, and a leading `0` exactly when the id is 0 |
| `SiteKeys.DecimalRoundTrip` | individual-author.php:83-84 | reading the decimal rendering of a blog id back yields that id (proved by induction on the id) |
| `SiteKeys.FieldKey` | individual-author.php:83-84 | the key of a field on a site is that field's prefix followed by a non-empty run of decimal digits; with `FieldKeyRoundTrip` and `FieldKeyInjective` it determines its field and site uniquely |
| `SiteKeys.ParseFieldKey` | individual-author.php:83-84 | proof device, not plugin behaviour: the left inverse of the key derivation; a string accepted as a key starts with the prefix of the field it is parsed as |
| `SiteKeys.FieldKeyRoundTrip` | individual-author.php:83-84 | every key `ima_display_name_<id>` / `ima_description_<id>` parses back to exactly its field and blog id |
| `SiteKeys.FieldKeyInjective` | individual-author.php:83-84 | two keys are equal iff they name the same field on the same site: different sites never share a key and a display-name key never equals a description key |
| `UserMeta.GetMeta` | individual-author.php:189 | the `get_the_author_meta` read of a meta key (also at lines 172 and 202): a stored entry is returned as stored, and a non-empty result only ever comes from a stored entry (a missing entry reads as `""`) |
| `UserMeta.UserMetaStore.Update` | individual-author.php:158-159 | `update_user_meta` overwrites exactly the one (user, key) entry |
| `IndividualAuthor.ImaClass.constructor` | individual-author.php:83-84 | both key fields are derived once from the current blog id |
| `IndividualAuthor.KeysDistinct` | individual-author.php:83-84 | the two keys of one plugin object differ, so the second write of a save cannot clobber the first |
| `IndividualAuthor.Resolve` | individual-author.php:177 | an empty override yields the base value, a non-empty override replaces it |
| `IndividualAuthor.PostedField` | individual-author.php:150-151 | a posted field yields `wp_unslash` of its value; a non-empty value only ever comes from a field present in the POST data (an absent field gives `""`) |
| `IndividualAuthor.ImaClass.ProfileFieldValues` | individual-author.php:100-117 | the form is prefilled with the reads of this site's own display-name and description keys for the user; `SaveThenResolveSameSite` shows it returns what a save on this site stored, `SaveLeavesOtherSites` that a save on another site never changes it |
| `IndividualAuthor.SavedTable` | individual-author.php:158-159 | after the two writes the table has the new description and, keys being distinct, the new display name for the user; its domain gains at most those two entries and every other (user, key) entry keeps its value, including other sites' keys of the same user |
| `IndividualAuthor.ImaClass.SaveCustomProfileFields` | individual-author.php:140-160 | without edit permission nothing is written; with permission but a failing nonce nothing is written; with both, the store becomes exactly the old store with this site's two keys of the user overwritten by the filtered posted values (a missing field counts as `""` before filtering) |
| `IndividualAuthor.ImaClass.TheAuthor` | individual-author.php:169-178 | with no `$authordata` or no `ID` the base name is returned; otherwise this site's display-name override of that author when non-empty, else the base name |
| `IndividualAuthor.ImaClass.GetTheAuthorDisplayName` | individual-author.php:187-191 | returns no value (PHP `null`) exactly when the user id is 0, whatever the base and the store; otherwise this site's display-name override when non-empty, else the base value |
| `IndividualAuthor.ImaClass.GetTheAuthorDescription` | individual-author.php:200-204 | the same as the display-name filter, on this site's description key |
| `IndividualAuthor.SaveThenResolveSameSite` | individual-author.php:150-159 | after a save with values V and D on a site, that site's profile form is prefilled with (V, D) and its filters resolve to V / D, or to the base value where the saved value is empty |
| `IndividualAuthor.SaveLeavesOtherSites` | individual-author.php:158-159 | a save through one site's plugin object leaves the prefill and every read filter of any other site unchanged, for every user |
| `IndividualAuthor.EmptyOverrideIsNoOverride` | individual-author.php:177 | storing `""` under a key gives the same read-filter results as having no entry under it |
| `IndividualAuthor.LoopAndExplicitFiltersAgree` | individual-author.php:169-191 | for an author with a nonzero id, `the_author` and `get_the_author_display_name` resolve to the same value |
| `IndividualAuthor.JaneDoeScenario` | individual-author.php:187-191 | user 7 "Jane Doe" resolves to "Jane Doe" on site 3 without override, to "J. Doe (Site 3)" once site 3 stores it, and still to "Jane Doe" on site 5 |

## Left out

- Rendering of the profile form (`add_custom_profile_fields`, lines 92-133): HTML, escaping, translation and `home_url` labels are UI; only its two store reads are modelled, as `ImaClass.ProfileFieldValues`.
- The direct-access guard (lines 27-31) and the non-multisite admin notice (lines 37-50): request I/O; the model assumes multisite is on.
- Hook registration with `add_action` / `add_filter` (lines 76-82): framework wiring.
- The contents of `wp_unslash`, `pre_user_description` and `pre_user_display_name`: host code, kept as uninterpreted functions.
- `current_user_can` and `check_admin_referer`: host authentication and nonces, given as booleans; a `check_admin_referer` that dies instead of returning false writes nothing either way.
- `update_metadata`'s own refusal of user id 0 and its no-op when the value is unchanged: host behaviour; the store writes every update.
- `get_the_author_meta`'s lookup through `get_userdata` and its per-field filters: modelled as a plain table read with `""` for a missing entry.
- PHP loose typing: user ids are natural numbers (0 is the only falsy id), base values are strings (a `null` base is not modelled), posted values are strings (array-valued POST fields are not modelled).
- Concurrent saves on the shared store: the plugin adds no locking.
- `update_user_meta`'s own processing of the value (WordPress's `update_metadata` unslashes it and runs `sanitize_meta` before storing): host code, folded into the uninterpreted `preUserDisplayName` / `preUserDescription` parameters, which stand for the whole composition; the store itself writes the value it is given.
