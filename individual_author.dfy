/**
 * The site-scoped author override of the Individual Multisite Author plugin:
 * per site, a display name and a biography for each user, stored under keys
 * derived from the blog id, saved from the profile form behind a permission
 * and a nonce check, and substituted into the author read filters when non-empty.
 */
module IndividualAuthor {

  import opened Wrappers
  import opened SiteKeys
  import opened UserMeta

  /** The global `$authordata`, when it is an object: its `ID` may be unset. */
  datatype AuthorData = AuthorData(id: Option<UserId>)

  /** Why a save wrote nothing, or that it wrote; the source returns silently in every case. */
  datatype SaveOutcome = Saved | PermissionDenied | InvalidRequest

  /** An empty override means "no override": the base value shows through. */
  function Resolve(override: string, base: string): (r: string)
    ensures override == "" ==> r == base
    ensures override != "" ==> r == override
  {
    if override == "" then base else override
  }

  /** The value of one form field: `wp_unslash` of the posted value, or "" when it was not posted. */
  function PostedField(post: map<string, string>, key: MetaKey, unslash: string -> string): (r: string)
    ensures key in post ==> r == unslash(post[key])
    ensures r != "" ==> key in post
  {
    if key in post then unslash(post[key]) else ""
  }

  /** The meta table after the two writes of a save, display name first. */
  function SavedTable(t: MetaTable, user: UserId, displayNameKey: MetaKey, descriptionKey: MetaKey,
                      displayName: string, description: string): (r: MetaTable)
    ensures r.Keys == t.Keys + {(user, displayNameKey), (user, descriptionKey)}
    ensures GetMeta(r, user, descriptionKey) == description
    ensures displayNameKey != descriptionKey ==> GetMeta(r, user, displayNameKey) == displayName
    ensures forall e :: e in t && e != (user, displayNameKey) && e != (user, descriptionKey) ==> r[e] == t[e]
  {
    t[(user, displayNameKey) := displayName][(user, descriptionKey) := description]
  }

  class ImaClass {
    /** The blog id current when the plugin object was built. */
    ghost const siteId: nat
    const displayNameFieldName: MetaKey
    const descriptionFieldName: MetaKey

    ghost predicate Valid() {
      && displayNameFieldName == FieldKey(DisplayName, siteId)
      && descriptionFieldName == FieldKey(Description, siteId)
    }

    /** Derives both keys once from the current blog id; multisite is assumed to be on. */
    constructor (currentBlogId: nat)
      ensures siteId == currentBlogId && Valid()
    {
      siteId := currentBlogId;
      displayNameFieldName := FieldKey(DisplayName, currentBlogId);
      descriptionFieldName := FieldKey(Description, currentBlogId);
    }

    /** The two values the profile form is prefilled with: this site's overrides for `user`. */
    function ProfileFieldValues(t: MetaTable, user: UserId): (r: (string, string))
      ensures Valid() ==>
        r == (GetMeta(t, user, FieldKey(DisplayName, siteId)), GetMeta(t, user, FieldKey(Description, siteId)))
    {
      (GetMeta(t, user, displayNameFieldName), GetMeta(t, user, descriptionFieldName))
    }

    /**
     * Saves the two overrides of `userId` for this site. The host's permission
     * check and nonce check arrive as booleans, the sanitising filters and
     * `wp_unslash` as functions.
     */
    method SaveCustomProfileFields(store: UserMetaStore, userId: UserId,
                                   canEditUser: bool, refererValid: bool,
                                   post: map<string, string>, unslash: string -> string,
                                   preUserDescription: string -> string,
                                   preUserDisplayName: string -> string)
      returns (outcome: SaveOutcome)
      modifies store
      ensures !canEditUser ==> outcome == PermissionDenied
      ensures canEditUser && !refererValid ==> outcome == InvalidRequest
      ensures canEditUser && refererValid ==> outcome == Saved
      ensures outcome != Saved ==> store.table == old(store.table)
      ensures outcome == Saved ==>
        store.table == SavedTable(old(store.table), userId, displayNameFieldName, descriptionFieldName,
                                  preUserDisplayName(PostedField(post, displayNameFieldName, unslash)),
                                  preUserDescription(PostedField(post, descriptionFieldName, unslash)))
    {
      if !canEditUser {
        return PermissionDenied;
      }
      if !refererValid {
        return InvalidRequest;
      }
      var displayName := PostedField(post, displayNameFieldName, unslash);
      var description := PostedField(post, descriptionFieldName, unslash);
      description := preUserDescription(description);
      displayName := preUserDisplayName(displayName);
      store.Update(userId, displayNameFieldName, displayName);
      store.Update(userId, descriptionFieldName, description);
      outcome := Saved;
    }

    /** The `the_author` filter: the author comes from the global `$authordata`. */
    function TheAuthor(t: MetaTable, authordata: Option<AuthorData>, baseDisplayName: string): (r: string)
      ensures authordata.None? || authordata.value.id.None? ==> r == baseDisplayName
      ensures authordata.Some? && authordata.value.id.Some? ==>
        var override := GetMeta(t, authordata.value.id.value, displayNameFieldName);
        (override == "" && r == baseDisplayName) || (override != "" && r == override)
    {
      var displayName :=
        if authordata.Some? && authordata.value.id.Some?
        then GetMeta(t, authordata.value.id.value, displayNameFieldName)
        else "";
      Resolve(displayName, baseDisplayName)
    }

    /** The `get_the_author_display_name` filter; None is PHP's bare `return;` for a falsy user id. */
    function GetTheAuthorDisplayName(t: MetaTable, val: string, userId: UserId): (r: Option<string>)
      ensures userId == 0 <==> r.None?
      ensures userId != 0 ==>
        var override := GetMeta(t, userId, displayNameFieldName);
        (override == "" && r == Some(val)) || (override != "" && r == Some(override))
    {
      if userId == 0 then None
      else Some(Resolve(GetMeta(t, userId, displayNameFieldName), val))
    }

    /** The `get_the_author_description` filter; None is PHP's bare `return;` for a falsy user id. */
    function GetTheAuthorDescription(t: MetaTable, val: string, userId: UserId): (r: Option<string>)
      ensures userId == 0 <==> r.None?
      ensures userId != 0 ==>
        var override := GetMeta(t, userId, descriptionFieldName);
        (override == "" && r == Some(val)) || (override != "" && r == Some(override))
    {
      if userId == 0 then None
      else Some(Resolve(GetMeta(t, userId, descriptionFieldName), val))
    }
  }

  /** The two keys of one plugin object never collide. */
  lemma KeysDistinct(p: ImaClass)
    requires p.Valid()
    ensures p.displayNameFieldName != p.descriptionFieldName
  {
  }

  /**
   * Round trip on the same site: after a save with filtered values `v` and `d`,
   * the profile form shows them and every read filter resolves to them, or to
   * its base value where the saved value is empty.
   */
  lemma SaveThenResolveSameSite(p: ImaClass, t: MetaTable, user: UserId, v: string, d: string, base: string)
    requires p.Valid()
    ensures var s := SavedTable(t, user, p.displayNameFieldName, p.descriptionFieldName, v, d);
      && p.ProfileFieldValues(s, user) == (v, d)
      && p.TheAuthor(s, Some(AuthorData(Some(user))), base) == (if v == "" then base else v)
      && (user != 0 ==> p.GetTheAuthorDisplayName(s, base, user) == Some(if v == "" then base else v))
      && (user != 0 ==> p.GetTheAuthorDescription(s, base, user) == Some(if d == "" then base else d))
  {
  }

  /**
   * Site isolation: a save made through the plugin object of one site changes
   * no read made through the plugin object of another site, for any user.
   */
  lemma SaveLeavesOtherSites(p: ImaClass, q: ImaClass, t: MetaTable, user: UserId, v: string, d: string,
                             reader: UserId, authordata: Option<AuthorData>, base: string)
    requires p.Valid() && q.Valid() && p.siteId != q.siteId
    ensures var s := SavedTable(t, user, p.displayNameFieldName, p.descriptionFieldName, v, d);
      && q.ProfileFieldValues(s, reader) == q.ProfileFieldValues(t, reader)
      && q.TheAuthor(s, authordata, base) == q.TheAuthor(t, authordata, base)
      && q.GetTheAuthorDisplayName(s, base, reader) == q.GetTheAuthorDisplayName(t, base, reader)
      && q.GetTheAuthorDescription(s, base, reader) == q.GetTheAuthorDescription(t, base, reader)
  {
    FieldKeyInjective(DisplayName, p.siteId, DisplayName, q.siteId);
    FieldKeyInjective(DisplayName, p.siteId, Description, q.siteId);
    FieldKeyInjective(Description, p.siteId, DisplayName, q.siteId);
    FieldKeyInjective(Description, p.siteId, Description, q.siteId);
  }

  /**
   * Storing an empty override is the same, for every read filter, as having
   * no entry at all.
   */
  lemma EmptyOverrideIsNoOverride(p: ImaClass, t: MetaTable, user: UserId, key: MetaKey,
                                  reader: UserId, authordata: Option<AuthorData>, base: string)
    ensures var cleared := t[(user, key) := ""];
            var absent := t - {(user, key)};
      && p.TheAuthor(cleared, authordata, base) == p.TheAuthor(absent, authordata, base)
      && p.GetTheAuthorDisplayName(cleared, base, reader) == p.GetTheAuthorDisplayName(absent, base, reader)
      && p.GetTheAuthorDescription(cleared, base, reader) == p.GetTheAuthorDescription(absent, base, reader)
  {
  }

  /** The loop filter and the explicit display-name filter agree whenever the author has a nonzero id. */
  lemma LoopAndExplicitFiltersAgree(p: ImaClass, t: MetaTable, user: UserId, base: string)
    requires user != 0
    ensures p.GetTheAuthorDisplayName(t, base, user) == Some(p.TheAuthor(t, Some(AuthorData(Some(user))), base))
  {
  }

  /**
   * User 7 ("Jane Doe") on site 3: no override gives the base name; once site 3
   * stores "J. Doe (Site 3)" site 3 shows it, while site 5 still shows "Jane Doe".
   */
  lemma JaneDoeScenario(site3: ImaClass, site5: ImaClass, t: MetaTable)
    requires site3.Valid() && site3.siteId == 3
    requires site5.Valid() && site5.siteId == 5
    requires GetMeta(t, 7, site3.displayNameFieldName) == ""
    requires GetMeta(t, 7, site5.displayNameFieldName) == ""
    ensures site3.GetTheAuthorDisplayName(t, "Jane Doe", 7) == Some("Jane Doe")
    ensures var s := t[(7, site3.displayNameFieldName) := "J. Doe (Site 3)"];
      && site3.GetTheAuthorDisplayName(s, "Jane Doe", 7) == Some("J. Doe (Site 3)")
      && site5.GetTheAuthorDisplayName(s, "Jane Doe", 7) == Some("Jane Doe")
  {
  }
}
