/**
 * User settings (src/hooks/useSettings.ts): the defaults shown when no row is
 * loaded, the fetch that creates a missing row, and `updateSettings`, which
 * merges a partial update into the loaded row once the store accepts it. A
 * settings row is a map from column name to value; the store's replies are
 * parameters.
 */
module Settings {
  import opened Common

  datatype Value = Str(s: string) | Flag(b: bool) | Num(n: int)

  /** A settings row, column by column. */
  type Row = map<string, Value>

  /** `defaultSettings`: every column but `id` and `user_id`. */
  const Defaults: Row := map[
    "theme" := Str("system"),
    "language" := Str("en"),
    "date_format" := Str("MM/DD/YYYY"),
    "compact_mode" := Flag(false),
    "animations_enabled" := Flag(true),
    "show_xp_in_header" := Flag(true),
    "email_daily_streak" := Flag(true),
    "email_new_lesson" := Flag(false),
    "email_weekly_summary" := Flag(true),
    "email_scanner_complete" := Flag(true),
    "email_portfolio_alerts" := Flag(true),
    "email_badge_unlocked" := Flag(true),
    "email_marketing" := Flag(false),
    "desktop_notifications" := Flag(true),
    "sound_effects" := Flag(true),
    "confidence_threshold" := Num(70),
    "auto_fetch_prices" := Flag(true),
    "include_fundamentals" := Flag(true),
    "include_news" := Flag(true),
    "save_scan_history" := Flag(true),
    "history_retention_days" := Num(30),
    "starting_cash" := Num(100000),
    "default_order_type" := Str("market"),
    "confirm_before_trade" := Flag(true),
    "show_pnl_mode" := Str("both")
  ]

  /** The settings the hook hands out: the loaded row, or the defaults with empty ids. */
  function Shown(loaded: Option<Row>): (r: Row)
    ensures loaded.Some? ==> r == loaded.value
    ensures loaded.None? ==>
              && r.Keys == Defaults.Keys + {"id", "user_id"}
              && r["id"] == Str("") && r["user_id"] == Str("")
              && forall k :: k in Defaults ==> r[k] == Defaults[k]
  {
    if loaded.Some? then loaded.value
    else
      DefaultsLackIds();
      Defaults + map["id" := Str(""), "user_id" := Str("")]
  }

  /** The defaults name neither id column, so the empty ids do not hide a default. */
  lemma DefaultsLackIds()
    ensures "id" !in Defaults && "user_id" !in Defaults
  {
  }

  /** What a fetch does: whether a default row is created for the user, and the settings afterwards. */
  datatype Fetch = Fetch(createFor: Option<string>, settings: Option<Row>)

  /**
   * `fetchSettings`: without a user the settings are cleared; a read error
   * leaves them as they were; a found row is taken; when there is none a row
   * holding only the user id is created and the store's reply is taken,
   * unless that insert fails.
   */
  function FetchSettings(user: Option<string>, current: Option<Row>, found: Result<Option<Row>>, created: Result<Row>): (r: Fetch)
    ensures user.None? ==> r == Fetch(None, None)
    ensures r.createFor.Some? <==> user.Some? && found == Ok(None)
    ensures r.createFor.Some? ==> r.createFor == user
    ensures user.Some? && found.Failed? ==> r.settings == current
    ensures user.Some? && found.Ok? && found.value.Some? ==> r.settings == found.value
    ensures user.Some? && found == Ok(None) ==> r.settings == (if created.Ok? then Some(created.value) else current)
  {
    if user.None? then Fetch(None, None)
    else if found.Failed? then Fetch(None, current)
    else if found.value.Some? then Fetch(None, found.value)
    else if created.Failed? then Fetch(Some(user.value), current)
    else Fetch(Some(user.value), Some(created.value))
  }

  /** What an update does: the value returned, whether the store was written, and the settings afterwards. */
  datatype Update = Update(ok: bool, written: bool, settings: Option<Row>)

  /**
   * `updateSettings`: without a user or loaded settings it returns false and
   * writes nothing; otherwise it writes the updates, and only when the store
   * accepts them does every updated column take its new value, every other
   * column keeping its old one.
   */
  function UpdateSettings(signedIn: bool, settings: Option<Row>, updates: Row, writeFailed: bool): (r: Update)
    ensures !signedIn || settings.None? ==> r == Update(false, false, settings)
    ensures r.written <==> signedIn && settings.Some?
    ensures r.ok <==> r.written && !writeFailed
    ensures !r.ok ==> r.settings == settings
    ensures r.ok ==>
              && r.settings.Some?
              && r.settings.value.Keys == settings.value.Keys + updates.Keys
              && (forall k :: k in updates ==> r.settings.value[k] == updates[k])
              && (forall k :: k in settings.value && k !in updates ==> r.settings.value[k] == settings.value[k])
  {
    if !signedIn || settings.None? then Update(false, false, settings)
    else if writeFailed then Update(false, true, settings)
    else Update(true, true, Some(settings.value + updates))
  }

  /** Applying the same update twice leaves the settings as one application does. */
  lemma UpdateIdempotent(row: Row, updates: Row)
    ensures var once := UpdateSettings(true, Some(row), updates, false).settings;
            UpdateSettings(true, once, updates, false).settings == once
  {
    var once := row + updates;
    assert once + updates == once;
  }

  /** Two accepted updates in a row act as one update with the later values winning. */
  lemma UpdatesCompose(row: Row, u1: Row, u2: Row)
    ensures var first := UpdateSettings(true, Some(row), u1, false).settings;
            UpdateSettings(true, first, u2, false).settings
              == UpdateSettings(true, Some(row), u1 + u2, false).settings
  {
    assert (row + u1) + u2 == row + (u1 + u2);
  }

  /**
   * What the hook hands out after an update: an accepted update shows every
   * updated column with its new value; a refused or failed one shows the
   * settings as before.
   */
  lemma ShownAfterUpdate(signedIn: bool, settings: Option<Row>, updates: Row, writeFailed: bool)
    ensures var r := UpdateSettings(signedIn, settings, updates, writeFailed);
            && (r.ok ==> forall k :: k in updates ==> k in Shown(r.settings) && Shown(r.settings)[k] == updates[k])
            && (!r.ok ==> Shown(r.settings) == Shown(settings))
  {
  }

  /**
   * A user without a row sees the same column values before and after the
   * fetch creates one, when the store fills the new row with the same column
   * defaults as `defaultSettings`.
   */
  lemma CreatedRowShowsDefaults(user: string, current: Option<Row>, row: Row)
    requires current.None?
    requires forall k :: k in Defaults ==> k in row && row[k] == Defaults[k]
    ensures var r := FetchSettings(Some(user), current, Ok(None), Ok(row));
            && r.createFor == Some(user)
            && forall k :: k in Defaults ==> k in Shown(r.settings) && Shown(r.settings)[k] == Shown(current)[k]
  {
    DefaultsLackIds();
  }
}
