/** The `SkillUser` record: a user's profile, skills, credit balance and ratings. */
module SkillUsers {
  import opened Common

  /** The kind enum of a skill. */
  datatype SkillKind = Teach | Learn

  /** The name the enum stores; casting it back gives the same kind. */
  function KindName(k: SkillKind): (r: string)
    ensures ParseKind(r) == Some(k)
  {
    match k
    case Teach => "teach"
    case Learn => "learn"
  }

  /** Casting a string to the kind enum: only the two names are accepted. */
  function ParseKind(name: string): (r: Option<SkillKind>)
    ensures r == Some(Teach) <==> name == "teach"
    ensures r == Some(Learn) <==> name == "learn"
  {
    if name == "teach" then Some(Teach)
    else if name == "learn" then Some(Learn)
    else None
  }

  /** The credit balance a new user starts with. */
  const DefaultCredits: int := 5

  /** The level a skill gets when none is given. */
  const DefaultLevel: int := 1

  /** A stored skill; the name and the kind are not required. */
  datatype Skill = Skill(name: Option<string>, kind: Option<SkillKind>, level: int)

  /** One entry of a user's ratings list. */
  datatype Rating = Rating(star: int, reviewer: UserId)

  /** A stored user. The embedding and the transaction references are not part of this model. */
  datatype User = User(
    username: string,
    email: string,
    password: string,
    bio: Option<string>,
    skills: seq<Skill>,
    credits: int,
    ratings: seq<Rating>)

  /** A skill as it arrives in a request body: `kind` is the raw `type` string. */
  datatype SkillDraft = SkillDraft(name: Option<string>, kind: Option<string>, level: Option<int>)

  /** The fields handed to `create`: any of them may be missing. */
  datatype UserDraft = UserDraft(
    username: Option<string>,
    email: Option<string>,
    password: Option<string>,
    bio: Option<string>,
    skills: Option<seq<SkillDraft>>,
    credits: Option<int>)

  /** A string field that is present and not empty: a required string field that passes
      validation, and exactly the strings JavaScript treats as truthy. */
  predicate Present(f: Option<string>) {
    f.Some? && f.value != ""
  }

  /** Validation of one skill: a kind, when given, must be in the enum; the level defaults to 1. */
  function NewSkill(d: SkillDraft): (r: Option<Skill>)
    ensures r.Some? <==> d.kind.None? || ParseKind(d.kind.value).Some?
    ensures r.Some? ==>
      && r.value.name == d.name
      && (d.kind.None? ==> r.value.kind.None?)
      && (d.kind.Some? ==> r.value.kind.Some? && KindName(r.value.kind.value) == d.kind.value)
      && r.value.level == (if d.level.Some? then d.level.value else DefaultLevel)
  {
    if d.kind.None? then Some(Skill(d.name, None, d.level.GetOr(DefaultLevel)))
    else
      var k := ParseKind(d.kind.value);
      if k.None? then None else Some(Skill(d.name, Some(k.value), d.level.GetOr(DefaultLevel)))
  }

  /** Validation of a skills list: it succeeds when every skill does, and then keeps the
      list's order and length. */
  function NewSkills(ds: seq<SkillDraft>): (r: Option<seq<Skill>>)
    ensures r.Some? <==> forall i :: 0 <= i < |ds| ==> NewSkill(ds[i]).Some?
    ensures r.Some? ==> |r.value| == |ds| && forall i :: 0 <= i < |ds| ==> Some(r.value[i]) == NewSkill(ds[i])
  {
    if ds == [] then Some([])
    else
      var head := NewSkill(ds[0]);
      var tail := NewSkills(ds[1..]);
      if head.None? || tail.None? then None else Some([head.value] + tail.value)
  }

  /** Schema validation and defaults for a user: username, email and password are required,
      every skill must validate, credits default to 5 and the ratings list starts empty. */
  function NewUser(d: UserDraft): (r: Option<User>)
    ensures r.Some? <==>
      Present(d.username) && Present(d.email) && Present(d.password)
      && (d.skills.Some? ==> NewSkills(d.skills.value).Some?)
    ensures r.Some? ==>
      && r.value.username == d.username.value
      && r.value.email == d.email.value
      && r.value.password == d.password.value
      && r.value.bio == d.bio
      && (d.skills.None? ==> r.value.skills == [])
      && (d.skills.Some? ==> Some(r.value.skills) == NewSkills(d.skills.value))
      && r.value.credits == (if d.credits.Some? then d.credits.value else DefaultCredits)
      && r.value.ratings == []
  {
    if !Present(d.username) || !Present(d.email) || !Present(d.password) then None
    else
      var skills := if d.skills.None? then Some([]) else NewSkills(d.skills.value);
      if skills.None? then None
      else Some(User(d.username.value, d.email.value, d.password.value, d.bio, skills.value,
                     d.credits.GetOr(DefaultCredits), []))
  }

  /** The draft a stored skill came from; validating it rebuilds the skill. */
  function SkillDraftOf(k: Skill): (d: SkillDraft)
    ensures NewSkill(d) == Some(k)
  {
    SkillDraft(k.name, if k.kind.None? then None else Some(KindName(k.kind.value)), Some(k.level))
  }

  /** The drafts of a stored skills list; validating them rebuilds the list. */
  function SkillDraftsOf(ks: seq<Skill>): (ds: seq<SkillDraft>)
    ensures |ds| == |ks| && NewSkills(ds) == Some(ks)
  {
    var ds := seq(|ks|, i requires 0 <= i < |ks| => SkillDraftOf(ks[i]));
    assert forall i :: 0 <= i < |ds| ==> NewSkill(ds[i]) == Some(ks[i]);
    assert NewSkills(ds).value == ks;
    ds
  }

  /** A user with the three required fields set and no ratings yet: what signup stores. */
  predicate FreshUser(u: User) {
    u.username != "" && u.email != "" && u.password != "" && u.ratings == []
  }

  /** The draft a newly created user came from; validating it rebuilds the user. */
  function UserDraftOf(u: User): (d: UserDraft)
    requires FreshUser(u)
    ensures NewUser(d) == Some(u)
  {
    UserDraft(Some(u.username), Some(u.email), Some(u.password), u.bio,
              Some(SkillDraftsOf(u.skills)), Some(u.credits))
  }

  /** The unique index on `email`: no two users share one. */
  predicate UniqueEmails(users: seq<User>) {
    forall i, j :: 0 <= i < j < |users| ==> users[i].email != users[j].email
  }

  /** Some user is registered under `email`. */
  predicate EmailRegistered(users: seq<User>, email: string) {
    exists i :: 0 <= i < |users| && users[i].email == email
  }

  /** Adding a user whose email is not registered keeps emails unique. */
  lemma AddUserKeepsEmailsUnique(users: seq<User>, u: User)
    requires UniqueEmails(users) && !EmailRegistered(users, u.email)
    ensures UniqueEmails(users + [u])
  {
    forall i, j | 0 <= i < j < |users + [u]|
      ensures (users + [u])[i].email != (users + [u])[j].email
    {
      if j == |users| {
        assert users[i].email != u.email;
      }
    }
  }
}
