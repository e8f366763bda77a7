/** The two navigation bars (`Navigation` on wide screens,
    `BottomNavigation` on phones): the unread-notification badge, the avatar
    initial and the phone profile link. */
module Navigation {
  import opened Wrappers
  import opened Text
  import RoutePrefetch

  /** The badge on the bell icon. */
  datatype Badge = Hidden | Label(text: string)

  const Overflow := "9+"

  /** The badge for an unread count as the exact-count query returns it
      (`null` when the query gave none): hidden at zero, "9+" above nine,
      otherwise the single digit. Both bars use this rule. */
  function BadgeFor(count: Option<nat>): (b: Badge)
    ensures b.Hidden? <==> count.GetOr(0) == 0
    ensures b == Label(Overflow) <==> count.GetOr(0) > 9
    ensures b.Label? && b.text != Overflow ==>
              |b.text| == 1 && '1' <= b.text[0] <= '9' && DigitsValue(b.text) == count.GetOr(0)
  {
    var c := count.GetOr(0);
    if c == 0 then Hidden
    else if c > 9 then Label(Overflow)
    else
      NatToStringRoundTrip(c);
      Label(NatToString(c))
  }

  /** Reading a shown label back: a single digit is the exact count, and "9+"
      means more than nine. */
  lemma BadgeIsExactUpToNine(count: Option<nat>, other: Option<nat>)
    requires BadgeFor(count) == BadgeFor(other)
    ensures count.GetOr(0) <= 9 || other.GetOr(0) <= 9 ==> count.GetOr(0) == other.GetOr(0)
  {
  }

  /** The unread count kept by a bar: without a signed-in user nothing is
      fetched and the count stays; otherwise it becomes the answer, `null`
      read as zero. */
  function RefreshedCount(user: Option<string>, previous: nat, answer: Option<nat>): (r: nat)
    ensures user.None? ==> r == previous
    ensures user.Some? && answer.Some? ==> r == answer.value
    ensures user.Some? && answer.None? ==> r == 0
  {
    if user.None? then previous else answer.GetOr(0)
  }

  /** `x?.[0]?.toUpperCase()`: the upper-cased first character of a non-empty string. */
  function Initial(x: Option<string>): Option<char> {
    if x.Some? && x.value != "" then Some(UpperChar(x.value[0])) else None
  }

  /** The avatar fallback: the first character of the full name, else of the
      username, else of the e-mail, upper-cased; an empty or missing value
      falls through to the next, and "U" is shown when all are. */
  function AvatarInitial(fullName: Option<string>, username: Option<string>, email: Option<string>): (r: string)
    ensures |r| == 1
    ensures fullName.Some? && fullName.value != "" ==> r == [UpperChar(fullName.value[0])]
    ensures (fullName.None? || fullName.value == "") && username.Some? && username.value != "" ==>
              r == [UpperChar(username.value[0])]
    ensures (fullName.None? || fullName.value == "") && (username.None? || username.value == "") ==>
              (if email.Some? && email.value != "" then r == [UpperChar(email.value[0])] else r == "U")
  {
    match Initial(fullName)
    case Some(c) => [c]
    case None =>
      match Initial(username)
      case Some(c) => [c]
      case None =>
        match Initial(email)
        case Some(c) => [c]
        case None => "U"
  }

  /** The initial is never a lower-case ASCII letter. */
  lemma InitialNeverLowercase(fullName: Option<string>, username: Option<string>, email: Option<string>)
    ensures !('a' <= AvatarInitial(fullName, username, email)[0] <= 'z')
  {
  }

  /** The phone bar's avatar uses only the e-mail. */
  lemma PhoneAvatarUsesEmail(email: Option<string>)
    ensures AvatarInitial(None, None, email) == (if email.Some? && email.value != "" then [UpperChar(email.value[0])] else "U")
  {
  }

  /** The phone bar's profile link: `/profile/` plus the e-mail's part before
      the first `@`; without an e-mail the template renders "undefined". */
  function PhoneProfilePath(email: Option<string>): (r: string)
    ensures RoutePrefetch.ProfilePrefix <= r
    ensures email.Some? ==> r == RoutePrefetch.ProfilePrefix + BeforeFirst(email.value, '@')
    ensures email.None? ==> r == RoutePrefetch.ProfilePrefix + "undefined"
  {
    RoutePrefetch.ProfilePrefix + (if email.Some? then BeforeFirst(email.value, '@') else "undefined")
  }
}
