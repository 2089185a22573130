/** The user's settings and the record of dismissed feed-health notices. The
    settings are fields of the manager; dismissals are entries "url|millis"
    in one stored string set. */
module Preferences {
  import opened Wrappers
  import opened Strings
  import opened Numbers

  /** Values found in storage when the manager is created; `None` is a key
      never written. */
  datatype Stored = Stored(
    darkMode: Option<bool>,
    markOnScroll: Option<bool>,
    apiKey: Option<string>,
    language: Option<string>,
    syncInterval: Option<int>,
    dismissed: Option<set<string>>)

  const NothingStored := Stored(None, None, None, None, None, None)

  class PreferencesManager {
    var darkMode: bool
    var markOnScroll: bool
    var apiKey: string
    var language: string
    var syncInterval: int
    var dismissed: set<string>

    /** Each setting starts from storage, else from its default: dark mode
        off, mark-on-scroll off, no API key, the "system" language, one hour. */
    constructor(stored: Stored)
      ensures darkMode == stored.darkMode.GetOr(false)
      ensures markOnScroll == stored.markOnScroll.GetOr(false)
      ensures apiKey == stored.apiKey.GetOr("")
      ensures language == stored.language.GetOr("system")
      ensures syncInterval == stored.syncInterval.GetOr(1)
      ensures dismissed == stored.dismissed.GetOr({})
    {
      darkMode := stored.darkMode.GetOr(false);
      markOnScroll := stored.markOnScroll.GetOr(false);
      apiKey := stored.apiKey.GetOr("");
      language := stored.language.GetOr("system");
      syncInterval := stored.syncInterval.GetOr(1);
      dismissed := stored.dismissed.GetOr({});
    }

    method SetDarkMode(enabled: bool)
      modifies this
      ensures darkMode == enabled
      ensures markOnScroll == old(markOnScroll) && apiKey == old(apiKey) && language == old(language)
      ensures syncInterval == old(syncInterval) && dismissed == old(dismissed)
    {
      darkMode := enabled;
    }

    method SetMarkAsReadOnScroll(enabled: bool)
      modifies this
      ensures markOnScroll == enabled
      ensures darkMode == old(darkMode) && apiKey == old(apiKey) && language == old(language)
      ensures syncInterval == old(syncInterval) && dismissed == old(dismissed)
    {
      markOnScroll := enabled;
    }

    method SetGeminiApiKey(key: string)
      modifies this
      ensures apiKey == key
      ensures darkMode == old(darkMode) && markOnScroll == old(markOnScroll) && language == old(language)
      ensures syncInterval == old(syncInterval) && dismissed == old(dismissed)
    {
      apiKey := key;
    }

    method SetLanguage(lang: string)
      modifies this
      ensures language == lang
      ensures darkMode == old(darkMode) && markOnScroll == old(markOnScroll) && apiKey == old(apiKey)
      ensures syncInterval == old(syncInterval) && dismissed == old(dismissed)
    {
      language := lang;
    }

    method SetSyncInterval(hours: int)
      modifies this
      ensures syncInterval == hours
      ensures darkMode == old(darkMode) && markOnScroll == old(markOnScroll) && apiKey == old(apiKey)
      ensures language == old(language) && dismissed == old(dismissed)
    {
      syncInterval := hours;
    }

    /** `dismissFeedHealthNotification`: drop every entry of the url, then
        record it as dismissed now. */
    method DismissFeedHealthNotification(url: string, now: int)
      modifies this
      ensures dismissed == AfterDismiss(old(dismissed), url, now)
      ensures darkMode == old(darkMode) && markOnScroll == old(markOnScroll) && apiKey == old(apiKey)
      ensures language == old(language) && syncInterval == old(syncInterval)
    {
      dismissed := AfterDismiss(dismissed, url, now);
    }

    /** `clearExpiredDismissals`: keep the entries still young enough, and
        write the set back only when that dropped something. */
    method ClearExpiredDismissals(maxAge: int, now: int) returns (rewritten: bool)
      modifies this
      ensures dismissed == Unexpired(old(dismissed), now, maxAge)
      ensures rewritten <==> dismissed != old(dismissed)
      ensures darkMode == old(darkMode) && markOnScroll == old(markOnScroll) && apiKey == old(apiKey)
      ensures language == old(language) && syncInterval == old(syncInterval)
    {
      var kept := Unexpired(dismissed, now, maxAge);
      UnexpiredShrinks(dismissed, now, maxAge);
      rewritten := |kept| != |dismissed|;
      if rewritten {
        dismissed := kept;
      }
    }
  }

  /** The entry recording that `url` was dismissed at `now`. */
  function Entry(url: string, now: int): string {
    url + "|" + LongToString(now)
  }

  function AfterDismiss(s: set<string>, url: string, now: int): set<string> {
    (set e | e in s && !StartsWith(e, url + "|")) + {Entry(url, now)}
  }

  /** After a dismissal exactly one entry starts with "url|", the new one, and
      every entry of other urls is kept. */
  lemma DismissEffect(s: set<string>, url: string, now: int)
    ensures var r := AfterDismiss(s, url, now);
      && (forall e :: e in r && StartsWith(e, url + "|") <==> e == Entry(url, now))
      && (forall e :: e in s && !StartsWith(e, url + "|") ==> e in r)
      && (forall e :: e in r ==> e in s || e == Entry(url, now))
  {
    assert Entry(url, now)[..|url + "|"|] == url + "|";
  }

  /** An entry is kept when it has exactly two `|`-separated parts and its
      age, computed in `Long` arithmetic with an unreadable time counting as
      0, is below the limit. */
  predicate Fresh(e: string, now: int, maxAge: int) {
    var parts := Split(e, "|");
    |parts| == 2 && WrapLong(now - ToLongOrNull(parts[1]).GetOr(0)) < maxAge
  }

  function Unexpired(s: set<string>, now: int, maxAge: int): set<string> {
    set e | e in s && Fresh(e, now, maxAge)
  }

  /** The filter only removes, so the set changed exactly when it shrank. */
  lemma UnexpiredShrinks(s: set<string>, now: int, maxAge: int)
    ensures Unexpired(s, now, maxAge) <= s
    ensures |Unexpired(s, now, maxAge)| != |s| <==> Unexpired(s, now, maxAge) != s
  {
    var k := Unexpired(s, now, maxAge);
    if k != s {
      var e :| e in s && e !in k;
      SubsetSize(k, s - {e});
    }
  }

  lemma {:induction false} SubsetSize(a: set<string>, b: set<string>)
    requires a <= b
    ensures |a| <= |b|
    decreases |b|
  {
    if b != {} {
      var x :| x in b;
      SubsetSize(a - {x}, b - {x});
    }
  }

  /** A second clean-up with the same clock and limit keeps everything. */
  lemma ClearIdempotent(s: set<string>, now: int, maxAge: int)
    ensures Unexpired(Unexpired(s, now, maxAge), now, maxAge) == Unexpired(s, now, maxAge)
  {
  }

  /** Splitting on a character absent from the text gives the text itself. */
  lemma {:induction false} SplitFromPlain(s: string, cur: string)
    requires '|' !in s
    ensures SplitFrom(s, "|", cur) == [cur + s]
    decreases |s|
  {
    if |s| == 0 {
      assert cur + s == cur;
    } else {
      assert s[0] in s;
      assert !StartsWith(s, "|") by { assert s[..1] == [s[0]]; }
      SplitFromPlain(s[1..], cur + [s[0]]);
      assert cur + [s[0]] + s[1..] == cur + s;
    }
  }

  /** Splitting on a character absent from two texts joined by it gives the two texts. */
  lemma {:induction false} SplitAround(a: string, b: string, cur: string)
    requires '|' !in a && '|' !in b
    ensures SplitFrom(a + "|" + b, "|", cur) == [cur + a, b]
    decreases |a|
  {
    var s := a + "|" + b;
    if |a| == 0 {
      assert s == "|" + b && s[..1] == "|";
      assert s[1..] == b;
      SplitFromPlain(b, []);
      assert cur + a == cur && [] + b == b;
    } else {
      assert a[0] in a;
      assert s[0] == a[0] && s[..1] == [a[0]];
      assert s[1..] == a[1..] + "|" + b;
      SplitAround(a[1..], b, cur + [a[0]]);
      assert cur + [a[0]] + a[1..] == cur + a;
    }
  }

  /** A fresh dismissal of a url free of `|` parses back to its own time, so
      it stays until it is `maxAge` old; a url holding `|` yields an entry of
      more than two parts, which the next clean-up drops. */
  lemma DismissedEntryAge(url: string, now: int, later: int, maxAge: int)
    requires IsLong(now) && '|' !in url
    ensures Fresh(Entry(url, now), later, maxAge) <==> WrapLong(later - now) < maxAge
  {
    LongToStringChars(now, '|');
    LongRoundTrip(now);
    SplitAround(url, LongToString(now), []);
    assert [] + url == url;
  }
}
