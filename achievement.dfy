/** The Achievement model: badges, at most one of each type per user, and
    the display name of a badge type. */
module Achievements {
  import opened Common

  /** BADGE_TYPES: badge type to display name. */
  const BadgeTypes: map<string, string> := map[
    "streak_master" := "Streak Master",
    "night_owl" := "Night Owl",
    "early_bird" := "Early Bird",
    "code_machine" := "Code Machine",
    "music_enthusiast" := "Music Enthusiast",
    "networking_pro" := "Networking Pro",
    "meeting_warrior" := "Meeting Warrior",
    "first_wrapped" := "First Wrapped",
    "social_butterfly" := "Social Butterfly",
    "consistency_king" := "Consistency King"
  ]

  /** str_replace($from, $to, $s) for single characters. */
  function ReplaceChar(s: string, from: char, to: char): (r: string)
    ensures |r| == |s|
    ensures forall k :: 0 <= k < |s| ==> r[k] == if s[k] == from then to else s[k]
  {
    seq(|s|, k requires 0 <= k < |s| => if s[k] == from then to else s[k])
  }

  /** ucwords' default word delimiters: space, tab, CR, LF, form feed and
      vertical tab. */
  predicate IsWordDelimiter(c: char) {
    c == ' ' || c == '\t' || c == '\r' || c == '\n' || c == '\U{C}' || c == '\U{B}'
  }

  /** A position that starts a word: the first one, or one right after a
      delimiter. */
  predicate WordStart(s: string, k: nat)
    requires k < |s|
  {
    k == 0 || IsWordDelimiter(s[k - 1])
  }

  /** ucwords as PHP runs it: one pass that upper-cases the first character
      and every character that follows a delimiter. `atStart` says whether
      the previous character was a delimiter (or there was none). */
  function UcWordsFrom(s: string, atStart: bool): (r: string)
    ensures |r| == |s|
    ensures forall k :: 0 <= k < |s| ==>
      r[k] == if (k == 0 && atStart) || (k > 0 && IsWordDelimiter(s[k - 1])) then ToUpperAscii(s[k]) else s[k]
  {
    if s == [] then []
    else [if atStart then ToUpperAscii(s[0]) else s[0]] + UcWordsFrom(s[1..], IsWordDelimiter(s[0]))
  }

  function UcWords(s: string): (r: string)
    ensures |r| == |s|
    ensures forall k :: 0 <= k < |s| ==> r[k] == if WordStart(s, k) then ToUpperAscii(s[k]) else s[k]
  {
    UcWordsFrom(s, true)
  }

  /** The fallback name, ucwords(str_replace('_', ' ', $type)): it keeps the
      length, turns every '_' into a space, upper-cases the first letter of
      each word and leaves every other character as it is. */
  function FallbackName(badgeType: string): (r: string)
    ensures |r| == |badgeType|
    ensures forall k :: 0 <= k < |badgeType| ==>
      var c := if badgeType[k] == '_' then ' ' else badgeType[k];
      r[k] == if k == 0 || IsWordDelimiter(if badgeType[k - 1] == '_' then ' ' else badgeType[k - 1])
              then ToUpperAscii(c) else c
  {
    UcWords(ReplaceChar(badgeType, '_', ' '))
  }

  /** getBadgeNameAttribute: the table's name for a known type, otherwise
      the type with '_' turned into ' ' and each word capitalised. */
  function BadgeName(badgeType: string): (r: string)
    ensures badgeType in BadgeTypes ==> r == BadgeTypes[badgeType]
    ensures badgeType !in BadgeTypes ==> r == FallbackName(badgeType)
  {
    if badgeType in BadgeTypes then BadgeTypes[badgeType] else FallbackName(badgeType)
  }

  /** Every name in the table is free of '_'. */
  lemma TableNamesHaveNoUnderscore(badgeType: string)
    requires badgeType in BadgeTypes
    ensures '_' !in BadgeTypes[badgeType]
  {
  }

  /** A badge name never contains '_', from the table or from the fallback. */
  lemma BadgeNameHasNoUnderscore(badgeType: string)
    ensures '_' !in BadgeName(badgeType)
  {
    if badgeType in BadgeTypes {
      TableNamesHaveNoUnderscore(badgeType);
    } else {
      var r := BadgeName(badgeType);
      assert forall k | 0 <= k < |r| :: r[k] != '_';
    }
  }

  // ---------------------------------------------------------------------
  // The achievements table
  // ---------------------------------------------------------------------

  datatype AchievementRow = AchievementRow(userId: string, badgeType: string, year: Option<int>)

  function RowKey(r: AchievementRow): (string, string) { (r.userId, r.badgeType) }

  /** unique(['user_id', 'badge_type']): a user holds each badge at most once. */
  ghost predicate OneBadgePerType(rows: seq<AchievementRow>) {
    UniqueBy(rows, RowKey)
  }

  /** An INSERT: rejected when the user already holds that badge. */
  function AwardBadge(rows: seq<AchievementRow>, row: AchievementRow): (r: Option<seq<AchievementRow>>)
    ensures r.None? <==> exists i :: 0 <= i < |rows| && rows[i].userId == row.userId && rows[i].badgeType == row.badgeType
    ensures r.Some? ==> r.value == rows + [row]
    ensures OneBadgePerType(rows) && r.Some? ==> OneBadgePerType(r.value)
  {
    InsertUnique(rows, RowKey, row)
  }
}
