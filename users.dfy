/** The team page: closed to non-admins; for admins, the totals over the team
    list, and per member the avatar initials, the role badge and whether
    "Promote to Admin" is offered. */
module Users {

  import opened Text
  import opened Seqs
  import opened AuthContext

  datatype UserProfile = UserProfile(
    id: string,
    email: string,
    fullName: string,
    role: UserRole,
    ticketsAssigned: int,
    ticketsResolved: int,
    avgResolutionTime: string,
    createdAt: string)

  /** `pieces.map(n => n[0]).join('')`: the first character of each piece;
      an empty piece gives `undefined`, which `join` writes as nothing. */
  function FirstChars(pieces: seq<string>): (r: string)
    ensures |r| <= |pieces|
  {
    if pieces == [] then "" else CharAt0(pieces[0]) + FirstChars(pieces[1..])
  }

  /** `fullName.split(' ').map(n => n[0]).join('')`. */
  function Initials(fullName: string): (r: string)
    ensures |r| <= multiset(fullName)[' '] + 1
  {
    FirstChars(Split(fullName, ' '))
  }

  /** An independent reading of the initials: scanning left to right, every
      character that is not a space and comes first or right after a space. */
  function WordStarts(s: string, atStart: bool): string {
    if s == [] then "" else Kept(s[0], atStart) + WordStarts(s[1..], s[0] == ' ')
  }

  /** What the scan keeps of one character. */
  function Kept(c: char, atStart: bool): string {
    if atStart && c != ' ' then [c] else []
  }

  /** Whether the scan is at the start of a word after reading `s`. */
  function AfterScan(s: string, atStart: bool): bool {
    if s == [] then atStart else s[|s| - 1] == ' '
  }

  /** Reading a non-empty text: its first character, then the rest. */
  lemma WordStartsUnfold(s: string, atStart: bool)
    requires s != []
    ensures WordStarts(s, atStart) == Kept(s[0], atStart) + WordStarts(s[1..], s[0] == ' ')
  {
  }

  lemma AfterScanTail(x: string, atStart: bool)
    requires x != []
    ensures AfterScan(x[1..], x[0] == ' ') == AfterScan(x, atStart)
  {
    if |x| > 1 {
      assert x[1..][|x| - 2] == x[|x| - 1];
    }
  }

  lemma {:induction false} WordStartsAppend(x: string, y: string, atStart: bool)
    ensures WordStarts(x + y, atStart) == WordStarts(x, atStart) + WordStarts(y, AfterScan(x, atStart))
  {
    if x == [] {
      assert x + y == y;
    } else {
      var next := x[0] == ' ';
      var tail := x[1..];
      var xy := x + y;
      assert xy[0] == x[0] && xy[1..] == tail + y;
      WordStartsUnfold(xy, atStart);
      WordStartsUnfold(x, atStart);
      AfterScanTail(x, atStart);
      WordStartsAppend(tail, y, next);
      var k, a, b := Kept(x[0], atStart), WordStarts(tail, next), WordStarts(y, AfterScan(x, atStart));
      assert k + (a + b) == (k + a) + b;
    }
  }

  lemma {:induction false} WordStartsOfWord(w: string, atStart: bool)
    requires ' ' !in w
    ensures WordStarts(w, atStart) == if atStart then CharAt0(w) else ""
  {
    if w != [] {
      WordStartsOfWord(w[1..], false);
    }
  }

  /** One step of `split`: the initials of the text after the first space
      follow the first word's initial. */
  lemma InitialsStep(s: string, i: nat)
    requires i == FirstIndex(s, ' ') && i < |s|
    ensures Initials(s) == CharAt0(s[..i]) + Initials(s[i + 1..])
  {
    SplitAtFirst(s, ' ');
    FirstCharsCons(s[..i], Split(s[i + 1..], ' '));
  }

  lemma FirstCharsCons(a: string, rest: seq<string>)
    ensures FirstChars([a] + rest) == CharAt0(a) + FirstChars(rest)
  {
    assert ([a] + rest)[1..] == rest;
  }

  /** The scan over a word, a space and the rest. */
  lemma WordStartsStep(word: string, rest: string)
    requires ' ' !in word
    ensures WordStarts(word + [' '] + rest, true) == CharAt0(word) + WordStarts(rest, true)
  {
    var spaced := [' '] + rest;
    assert word + [' '] + rest == word + spaced;
    WordStartsAppend(word, spaced, true);
    WordStartsOfWord(word, true);
    assert spaced[1..] == rest;
  }

  /** The initials are exactly the first letters of the words, whatever the
      spacing: leading, trailing and repeated spaces add nothing. */
  lemma {:induction false} InitialsAreWordStarts(s: string)
    ensures Initials(s) == WordStarts(s, true)
    decreases |s|
  {
    var i := FirstIndex(s, ' ');
    if i == |s| {
      WordStartsOfWord(s, true);
    } else {
      InitialsStep(s, i);
      InitialsAreWordStarts(s[i + 1..]);
      assert s == s[..i] + [' '] + s[i + 1..];
      WordStartsStep(s[..i], s[i + 1..]);
    }
  }

  lemma {:induction false} NoSpaceInWordStarts(s: string, atStart: bool)
    ensures ' ' !in WordStarts(s, atStart)
  {
    if s != [] {
      NoSpaceInWordStarts(s[1..], s[0] == ' ');
    }
  }

  /** No initial is a space, and every initial is a character of the name. */
  lemma InitialsAreNameLetters(s: string)
    ensures ' ' !in Initials(s)
    ensures forall c :: c in Initials(s) ==> c in s
  {
    InitialsAreWordStarts(s);
    NoSpaceInWordStarts(s, true);
    WordStartsFromText(s, true);
  }

  lemma {:induction false} WordStartsFromText(s: string, atStart: bool)
    ensures forall c :: c in WordStarts(s, atStart) ==> c in s
  {
    if s != [] {
      WordStartsFromText(s[1..], s[0] == ' ');
      assert forall c :: c in s[1..] ==> c in s;
    }
  }

  /** A first and a last name give two initials. */
  lemma TwoWordInitials(first: string, last: string)
    requires first != [] && last != [] && ' ' !in first && ' ' !in last
    ensures Initials(first + [' '] + last) == [first[0], last[0]]
  {
    InitialsAreWordStarts(first + [' '] + last);
    WordStartsStep(first, last);
    WordStartsOfWord(last, true);
  }

  /** "John Doe" is shown as "JD". */
  lemma InitialsExample()
    ensures Initials("John Doe") == "JD"
  {
    assert "John Doe" == "John" + [' '] + "Doe";
    TwoWordInitials("John", "Doe");
  }

  function Assigned(u: UserProfile): int { u.ticketsAssigned }

  function ResolvedCount(u: UserProfile): int { u.ticketsResolved }

  datatype BadgeVariant = DefaultBadge | SecondaryBadge

  datatype MemberRow = MemberRow(
    initials: string,
    fullName: string,
    email: string,
    badge: BadgeVariant,
    roleText: string,
    promoteToAdmin: bool)

  function Row(u: UserProfile): MemberRow {
    MemberRow(Initials(u.fullName), u.fullName, u.email,
              if u.role == Admin then DefaultBadge else SecondaryBadge,
              RoleName(u.role), u.role != Admin)
  }

  datatype UsersView =
    | AccessRestricted
    | TeamPanel(totalUsers: nat, ticketsAssigned: int, ticketsResolved: int, rows: seq<MemberRow>)

  /** What the page renders for a viewer and the team list. The totals are
      the `reduce` running sums starting from 0. */
  function UsersPage(isAdmin: bool, users: seq<UserProfile>): (v: UsersView)
    ensures v.AccessRestricted? <==> !isAdmin
    ensures v.TeamPanel? ==>
      && v.totalUsers == |users|
      && v.ticketsAssigned == Sum(users, Assigned)
      && v.ticketsResolved == Sum(users, ResolvedCount)
      && |v.rows| == |users|
    ensures v.TeamPanel? ==> forall k :: 0 <= k < |v.rows| ==>
      && v.rows[k].initials == WordStarts(users[k].fullName, true)
      && (v.rows[k].promoteToAdmin <==> users[k].role != Admin)
      && (v.rows[k].badge == DefaultBadge <==> users[k].role == Admin)
  {
    if !isAdmin then
      AccessRestricted
    else
      SumLeftIsSum(users, Assigned, 0);
      SumLeftIsSum(users, ResolvedCount, 0);
      forall k | 0 <= k < |users|
        ensures Initials(users[k].fullName) == WordStarts(users[k].fullName, true)
      {
        InitialsAreWordStarts(users[k].fullName);
      }
      TeamPanel(|users|, SumLeft(users, Assigned, 0), SumLeft(users, ResolvedCount, 0),
                seq(|users|, k requires 0 <= k < |users| => Row(users[k])))
  }

  /** When no member has resolved more tickets than were assigned to them,
      the resolved total is at most the assigned total. */
  lemma ResolvedTotalWithinAssigned(users: seq<UserProfile>)
    requires forall u :: u in users ==> u.ticketsResolved <= u.ticketsAssigned
    ensures var v := UsersPage(true, users); v.ticketsResolved <= v.ticketsAssigned
  {
    SumMonotone(users, ResolvedCount, Assigned);
  }

  /** Adding members to the list adds their tickets to the totals. */
  lemma TotalsAdd(users: seq<UserProfile>, more: seq<UserProfile>)
    ensures var v, w, both := UsersPage(true, users), UsersPage(true, more), UsersPage(true, users + more);
      && both.totalUsers == v.totalUsers + w.totalUsers
      && both.ticketsAssigned == v.ticketsAssigned + w.ticketsAssigned
      && both.ticketsResolved == v.ticketsResolved + w.ticketsResolved
  {
    SumAppend(users, more, Assigned);
    SumAppend(users, more, ResolvedCount);
  }
}
