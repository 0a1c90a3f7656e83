/** The optional value the front end writes as `T | null` or `T | undefined`. */
module Wrappers {
  datatype Option<+T> = None | Some(value: T)
}

/**
 * Sequence operations behind the array methods the pages call:
 * `Array.prototype.filter`, `findIndex`/`lastIndexOf` and `find`.
 */
module Seqs {
  import opened Wrappers

  /** `r` is `s` with some elements dropped and the others kept in their order. */
  predicate IsSubsequence<T(==,!new)>(r: seq<T>, s: seq<T>)
    decreases |s|
  {
    if r == [] then true
    else if s == [] then false
    else (r[0] == s[0] && IsSubsequence(r[1..], s[1..])) || IsSubsequence(r, s[1..])
  }

  /** No element occurs twice. */
  predicate NoDuplicates<T(==,!new)>(s: seq<T>) {
    forall i, j :: 0 <= i < j < |s| ==> s[i] != s[j]
  }

  /**
   * `s.filter(p)`: the elements of `s` that satisfy `p`, each as often as in
   * `s`, in the order of `s`.
   */
  function Filter<T(==,!new)>(s: seq<T>, p: T -> bool): (r: seq<T>)
    ensures forall x :: x in r <==> x in s && p(x)
    ensures forall x :: multiset(r)[x] == if p(x) then multiset(s)[x] else 0
    ensures IsSubsequence(r, s)
  {
    if s == [] then []
    else
      var rest := Filter(s[1..], p);
      assert s == [s[0]] + s[1..];
      if p(s[0]) then
        assert ([s[0]] + rest)[1..] == rest;
        [s[0]] + rest
      else rest
  }

  /** A filter whose predicate holds everywhere keeps the whole sequence. */
  lemma {:induction false} FilterKeepsAll<T(!new)>(s: seq<T>, p: T -> bool)
    requires forall x :: x in s ==> p(x)
    ensures Filter(s, p) == s
  {
    if s != [] {
      FilterKeepsAll(s[1..], p);
    }
  }

  /** Two predicates that agree on every element of `s` select the same elements. */
  lemma {:induction false} FilterSameOn<T(!new)>(s: seq<T>, p: T -> bool, q: T -> bool)
    requires forall x :: x in s ==> p(x) == q(x)
    ensures Filter(s, p) == Filter(s, q)
  {
    if s != [] {
      assert forall x :: x in s[1..] ==> x in s;
      FilterSameOn(s[1..], p, q);
    }
  }

  /** Filtering distributes over concatenation. */
  lemma {:induction false} FilterAppend<T(!new)>(s: seq<T>, t: seq<T>, p: T -> bool)
    ensures Filter(s + t, p) == Filter(s, p) + Filter(t, p)
  {
    if s == [] {
      assert s + t == t;
    } else {
      assert (s + t)[1..] == s[1..] + t;
      FilterAppend(s[1..], t, p);
    }
  }

  /** Two filters in a row are one filter by the conjunction, so `displayed` is a single selection. */
  lemma {:induction false} FilterTwice<T(!new)>(s: seq<T>, p: T -> bool, q: T -> bool)
    ensures Filter(Filter(s, p), q) == Filter(s, x => p(x) && q(x))
  {
    if s != [] {
      FilterTwice(s[1..], p, q);
      if p(s[0]) {
        assert Filter([s[0]] + Filter(s[1..], p), q)
            == Filter([s[0]], q) + Filter(Filter(s[1..], p), q) by {
          FilterAppend([s[0]], Filter(s[1..], p), q);
        }
      }
    }
  }

  /** Filtering never creates a duplicate. */
  lemma {:induction false} FilterNoDuplicates<T(!new)>(s: seq<T>, p: T -> bool)
    requires NoDuplicates(s)
    ensures NoDuplicates(Filter(s, p))
  {
    if s != [] {
      FilterNoDuplicates(s[1..], p);
      var rest := Filter(s[1..], p);
      if p(s[0]) {
        assert s[0] !in s[1..] by {
          forall k | 0 <= k < |s[1..]| ensures s[1..][k] != s[0] {
            assert s[1..][k] == s[k + 1];
          }
        }
        assert s[0] !in rest;
        var r := [s[0]] + rest;
        forall i, j | 0 <= i < j < |r| ensures r[i] != r[j] {
          if i == 0 {
            assert r[j] == rest[j - 1];
          } else {
            assert r[i] == rest[i - 1] && r[j] == rest[j - 1];
          }
        }
      }
    }
  }

  /** `s.findIndex(p)` as an option: the first position whose element satisfies `p`. */
  function FirstIndex<T>(s: seq<T>, p: T -> bool): (r: Option<nat>)
    ensures r.Some? ==> r.value < |s| && p(s[r.value])
    ensures r.Some? ==> forall j :: 0 <= j < r.value ==> !p(s[j])
    ensures r.None? ==> forall j :: 0 <= j < |s| ==> !p(s[j])
  {
    if s == [] then None
    else if p(s[0]) then Some(0)
    else match FirstIndex(s[1..], p)
      case None => None
      case Some(k) => Some(k + 1)
  }

  /** The last position whose element satisfies `p`. */
  function LastIndex<T>(s: seq<T>, p: T -> bool): (r: Option<nat>)
    ensures r.Some? ==> r.value < |s| && p(s[r.value])
    ensures r.Some? ==> forall j :: r.value < j < |s| ==> !p(s[j])
    ensures r.None? ==> forall j :: 0 <= j < |s| ==> !p(s[j])
  {
    if s == [] then None
    else if p(s[|s| - 1]) then Some(|s| - 1)
    else LastIndex(s[..|s| - 1], p)
  }

  /** `s.find(p)`: the first element satisfying `p`, or nothing (`undefined`). */
  function Find<T>(s: seq<T>, p: T -> bool): (r: Option<T>)
    ensures r.None? <==> forall j :: 0 <= j < |s| ==> !p(s[j])
    ensures r.Some? ==> exists i :: 0 <= i < |s| && s[i] == r.value && p(s[i])
  {
    match FirstIndex(s, p)
    case None => None
    case Some(i) => Some(s[i])
  }
}

/**
 * The text search every list page performs: `a.toLowerCase().includes(b.toLowerCase())`,
 * restricted to ASCII case mapping.
 */
module Text {

  function LowerChar(c: char): char {
    if 'A' <= c <= 'Z' then (c as int + 32) as char else c
  }

  /** `s.toLowerCase()` on ASCII letters. */
  function Lower(s: string): (r: string)
    ensures |r| == |s|
    ensures forall i :: 0 <= i < |s| ==> r[i] == LowerChar(s[i])
  {
    seq(|s|, i requires 0 <= i < |s| => LowerChar(s[i]))
  }

  lemma LowerIsIdempotent(s: string)
    ensures Lower(Lower(s)) == Lower(s)
  {
  }

  predicate StartsWith(s: string, prefix: string) {
    |prefix| <= |s| && s[..|prefix|] == prefix
  }

  /** `s.includes(term)`: `term` starts at some position of `s`. */
  predicate Includes(s: string, term: string)
    decreases |s|
  {
    StartsWith(s, term) || (s != [] && Includes(s[1..], term))
  }

  /** `term` occurs in `s` starting at position `i`. */
  predicate OccursAt(s: string, term: string, i: int) {
    0 <= i <= |s| - |term| && s[i..i + |term|] == term
  }

  /** `Includes` agrees with the positional definition of a substring. */
  lemma {:induction false} IncludesAt(s: string, term: string)
    ensures Includes(s, term) <==> exists i :: OccursAt(s, term, i)
  {
    if StartsWith(s, term) {
      assert OccursAt(s, term, 0);
    } else if s != [] {
      IncludesAt(s[1..], term);
      if exists i :: OccursAt(s, term, i) {
        var i :| OccursAt(s, term, i);
        assert i != 0;
        assert s[1..][i - 1..i - 1 + |term|] == s[i..i + |term|];
        assert OccursAt(s[1..], term, i - 1);
      }
      if exists i :: OccursAt(s[1..], term, i) {
        var i :| OccursAt(s[1..], term, i);
        assert s[i + 1..i + 1 + |term|] == s[1..][i..i + |term|];
        assert OccursAt(s, term, i + 1);
      }
    }
  }

  /** The case-insensitive substring test. */
  predicate ContainsIgnoringCase(text: string, term: string) {
    Includes(Lower(text), Lower(term))
  }

  /** Every text contains the empty search term, so an empty search box hides nothing. */
  lemma EmptyTermMatches(text: string)
    ensures ContainsIgnoringCase(text, "")
  {
    assert Lower(text)[..0] == [];
  }

  /** Search is insensitive to the case of the term. */
  lemma {:induction false} TermCaseIgnored(text: string, term: string)
    ensures ContainsIgnoringCase(text, term) <==> ContainsIgnoringCase(text, Lower(term))
  {
    LowerIsIdempotent(term);
  }

  /** The UTF-16 code units of one character: two for a character outside the Basic Multilingual Plane. */
  function CodeUnits(c: char): nat {
    if c as int >= 0x10000 then 2 else 1
  }

  /**
   * `s.length`: JavaScript counts UTF-16 code units, so every character
   * counts once or twice, and a string of BMP characters counts its characters.
   */
  function Utf16Length(s: string): (n: nat)
    ensures |s| <= n <= 2 * |s|
    ensures (forall i :: 0 <= i < |s| ==> s[i] as int < 0x10000) ==> n == |s|
    decreases |s|
  {
    if s == "" then 0
    else
      var rest := Utf16Length(s[1..]);
      assert forall i :: 0 <= i < |s[1..]| ==> s[1..][i] == s[i + 1];
      CodeUnits(s[0]) + rest
  }

  /** Three emoji outside the Basic Multilingual Plane are six code units long. */
  lemma ThreeEmojiAreSixUnits()
    ensures Utf16Length("\U{1F600}\U{1F600}\U{1F600}") == 6
  {
    var s := "\U{1F600}\U{1F600}\U{1F600}";
    assert s[1..][1..][1..] == "";
  }

  /** The article search: the term occurs in the title or in the content, ignoring case. */
  predicate MatchesSearch(title: string, content: string, term: string) {
    ContainsIgnoringCase(title, term) || ContainsIgnoringCase(content, term)
  }
}

/** The records and enumerations of `src/types/index.ts`. */
module Types {
  import opened Wrappers

  datatype TicketStatus = Open | InProgress | Resolved | Closed
  datatype Priority = Low | Medium | High | Critical
  datatype Role = Admin | UserRole | Support
  datatype UserStatus = Active | Pending | Inactive

  /** The string each status is stored and displayed as. */
  function StatusName(s: TicketStatus): string {
    match s
    case Open => "open"
    case InProgress => "in_progress"
    case Resolved => "resolved"
    case Closed => "closed"
  }

  function RoleName(r: Role): string {
    match r
    case Admin => "admin"
    case UserRole => "user"
    case Support => "support"
  }

  function UserStatusName(s: UserStatus): string {
    match s
    case Active => "active"
    case Pending => "pending"
    case Inactive => "inactive"
  }

  /**
   * A row of the `users` table. `fullName`, `department` and `market` are
   * nullable columns (None is SQL null). `name` is the property the users
   * list reads although neither the declared type nor the table has it, so
   * every row the table returns has `name == None` (JavaScript `undefined`).
   */
  datatype User = User(
    id: string,
    email: string,
    role: Role,
    createdAt: string,
    fullName: Option<string>,
    department: Option<string>,
    market: Option<string>,
    status: UserStatus,
    name: Option<string>)

  datatype Ticket = Ticket(
    id: string,
    title: string,
    description: string,
    status: TicketStatus,
    priority: Priority,
    createdAt: string,
    updatedAt: string,
    createdBy: string,
    assignedTo: Option<string>,
    category: string,
    assetId: Option<string>)

  datatype KnowledgeArticle = KnowledgeArticle(
    id: string,
    title: string,
    content: string,
    category: string,
    tags: seq<string>,
    createdAt: string,
    updatedAt: string,
    authorId: string,
    isFeatured: bool,
    orderIndex: int)

  /** `user?.id`: the signed-in user's id, undefined when nobody is signed in. */
  function IdOf(current: Option<User>): Option<string> {
    match current
    case None => None
    case Some(u) => Some(u.id)
  }

  /**
   * The gate `user?.role !== 'admin'` shared by the admin pages and the
   * navigation: the stored role string is compared with "admin", and nobody
   * signed in (`undefined`) never equals it.
   */
  function Restricted(current: Option<User>): (r: bool)
    ensures r <==> current.None? || RoleName(current.value.role) != "admin"
    ensures !r ==> IsStaff(current.value)
  {
    current.None? || current.value.role != Admin
  }

  /** Users with role admin or support: the staff a ticket can be assigned to. */
  predicate IsStaff(u: User) {
    u.role == Admin || u.role == Support
  }

  /** The status strings are distinct, so a stored status string names one status. */
  lemma StatusNameInjective(a: TicketStatus, b: TicketStatus)
    ensures StatusName(a) == StatusName(b) ==> a == b
  {
  }
}
