/**
 * The `Leaderboard` component: how the standings the server returns are split into a
 * three-place podium and a list below it, how each person is named, and when the
 * "try again next week" hint and the empty-state message appear.
 */
module LeaderboardView {
  import opened Wrappers
  import Seqs
  import Text
  import Schema
  import Storage

  const PodiumSize: nat := 3
  const BoardSize: nat := 10
  const Anonymous: string := "Anonymous"

  /** The first three standings (`slice(0, 3)`). */
  function TopThree(entries: seq<Storage.Standing>): seq<Storage.Standing>
  {
    Seqs.Take(entries, PodiumSize)
  }

  /** Standings four to ten (`slice(3, 10)`, which clamps both ends to the length). */
  function RestOfList(entries: seq<Storage.Standing>): seq<Storage.Standing>
  {
    var n := |entries|;
    entries[(if n < PodiumSize then n else PodiumSize)..(if n < BoardSize then n else BoardSize)]
  }

  /** The podium followed by the list is exactly the first ten standings, in order, none twice. */
  lemma PodiumThenListIsTopTen(entries: seq<Storage.Standing>)
    ensures TopThree(entries) + RestOfList(entries) == Seqs.Take(entries, BoardSize)
    ensures |TopThree(entries)| <= PodiumSize && |RestOfList(entries)| <= BoardSize - PodiumSize
    ensures RestOfList(entries) != [] ==> |TopThree(entries)| == PodiumSize
  {
    var n := |entries|;
    if n >= PodiumSize {
      var end := if n < BoardSize then n else BoardSize;
      assert entries[..end] == entries[..PodiumSize] + entries[PodiumSize..end];
    }
  }

  /** The empty-state message appears exactly when neither the podium nor the list has anyone. */
  lemma EmptyStateIffNothingShown(entries: seq<Storage.Standing>)
    ensures ShowsEmptyState(entries) <==> TopThree(entries) == [] && RestOfList(entries) == []
  {
    if entries != [] {
      assert entries[0] in TopThree(entries);
    }
  }

  /** `entries.some(e => e.userId === user?.id)`: with nobody signed in `user?.id` is undefined and matches no row. */
  predicate UserInTop10(entries: seq<Storage.Standing>, current: Option<Schema.User>)
  {
    current.Some? && exists i :: 0 <= i < |entries| && entries[i].entry.userId == current.value.id
  }

  /** The "you were very close" hint next to the title. */
  predicate ShowsTooltip(entries: seq<Storage.Standing>, current: Option<Schema.User>)
  {
    !UserInTop10(entries, current) && current.Some?
  }

  predicate ShowsEmptyState(entries: seq<Storage.Standing>)
  {
    |entries| == 0
  }

  /** The hint shows exactly to a signed-in user none of whose rows is on the board, an empty board included. */
  lemma TooltipIffAbsent(entries: seq<Storage.Standing>, current: Option<Schema.User>)
    ensures (ShowsTooltip(entries, current)
             <==> current.Some? && forall e :: e in entries ==> e.entry.userId != current.value.id)
  {
    if current.Some? && !forall e :: e in entries ==> e.entry.userId != current.value.id {
      var e :| e in entries && e.entry.userId == current.value.id;
      var i :| 0 <= i < |entries| && entries[i] == e;
    }
  }

  predicate HasDisplayName(u: Schema.User)
  {
    u.displayName.Some? && u.displayName.value != ""
  }

  /** `${firstName || ""} ${lastName || ""}` before trimming. */
  function FullName(u: Schema.User): string
  {
    u.firstName.GetOr("") + " " + u.lastName.GetOr("")
  }

  /**
   * `getUserDisplayName`: the display name when it is non-empty, else the trimmed full
   * name when that is non-empty, else "Anonymous" (also for a row without a user).
   */
  function DisplayName(user: Option<Schema.User>): (name: string)
    ensures name != ""
    ensures user.None? ==> name == Anonymous
    ensures user.Some? && HasDisplayName(user.value) ==> name == user.value.displayName.value
    ensures (user.Some? && !HasDisplayName(user.value)
             && Text.Blank(user.value.firstName.GetOr("")) && Text.Blank(user.value.lastName.GetOr(""))
             ==> name == Anonymous)
    ensures (user.Some? && !HasDisplayName(user.value) && name != Anonymous
             ==> Text.Contains(FullName(user.value), name)
                 && !Text.IsJsWhitespace(name[0]) && !Text.IsJsWhitespace(name[|name| - 1]))
    ensures (user.Some? && !HasDisplayName(user.value) && name != Anonymous
             ==> name == Text.Trim(FullName(user.value)))
    ensures (user.Some? && !HasDisplayName(user.value) && Text.Trim(FullName(user.value)) != ""
             ==> name == Text.Trim(FullName(user.value)))
  {
    match user
    case None => Anonymous
    case Some(u) =>
      if HasDisplayName(u) then u.displayName.value
      else
        var full := FullName(u);
        var trimmed := Text.Trim(full);
        Text.TrimShape(full);
        BlankFullName(u);
        if trimmed != "" then trimmed else Anonymous
  }

  /** A full name built from two blank halves trims to nothing. */
  lemma BlankFullName(u: Schema.User)
    ensures Text.Blank(u.firstName.GetOr("")) && Text.Blank(u.lastName.GetOr("")) ==> Text.Trim(FullName(u)) == ""
  {
    var first, last := u.firstName.GetOr(""), u.lastName.GetOr("");
    var full := FullName(u);
    if Text.Blank(first) && Text.Blank(last) {
      forall i | 0 <= i < |full| ensures Text.IsJsWhitespace(full[i]) {
        if i < |first| {
          assert full[i] == first[i];
        } else if i > |first| {
          assert full[i] == last[i - |first| - 1];
        } else {
          assert full[i] == ' ';
        }
      }
      Text.TrimEmptyIff(full);
    }
  }
}
