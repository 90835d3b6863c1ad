/** The registration routes: the skill text built for embeddings, `/signup` and `/signin`.
    Password hashing and comparison are passed in as functions; bio generation is passed in
    as its answer. */
module AuthRoutes {
  import opened Common
  import opened JsStrings
  import opened SkillUsers
  import opened Stores

  // ---------------------------------------------------------------------------
  // generateSkillText

  /** A skill's `name` as `join` renders it: a missing name becomes the empty string. */
  function NameText(s: SkillDraft): string {
    s.name.GetOr("")
  }

  /** `skills.filter(s => s.type === kind).map(s => s.name)`: the names of the skills of
      that kind, in input order. */
  function NamesOfKind(skills: seq<SkillDraft>, kind: string): (r: seq<string>)
    ensures |r| <= |skills|
    ensures forall x :: x in r ==> exists s :: s in skills && s.kind == Some(kind) && NameText(s) == x
  {
    if skills == [] then []
    else
      (if skills[0].kind == Some(kind) then [NameText(skills[0])] else [])
      + NamesOfKind(skills[1..], kind)
  }

  /** The names of a list are the names of its parts, one after the other. */
  lemma {:induction false} NamesOfKindConcat(a: seq<SkillDraft>, b: seq<SkillDraft>, kind: string)
    ensures NamesOfKind(a + b, kind) == NamesOfKind(a, kind) + NamesOfKind(b, kind)
    decreases |a|
  {
    if a == [] {
      assert a + b == b;
    } else {
      assert (a + b)[1..] == a[1..] + b;
      NamesOfKindConcat(a[1..], b, kind);
    }
  }

  /** A single skill contributes its name exactly when it has the kind. */
  lemma NamesOfOne(s: SkillDraft, kind: string)
    ensures NamesOfKind([s], kind) == if s.kind == Some(kind) then [NameText(s)] else []
  {
    assert [s][1..] == [];
  }

  const TeachLabel: string := "Can teach: "
  const LearnLabel: string := ". Wants to learn: "
  const BioLabel: string := ". Bio: "

  /** The text of the skills' teach part. */
  function TeachPart(skills: seq<SkillDraft>): string {
    Join(NamesOfKind(skills, "teach"), ", ")
  }

  /** The text of the skills' learn part. */
  function LearnPart(skills: seq<SkillDraft>): string {
    Join(NamesOfKind(skills, "learn"), ", ")
  }

  /** `generateSkillText(skills)`. `skills` is an array, whose `bio` property is undefined,
      so the text after the bio label is always empty. */
  function GenerateSkillText(skills: seq<SkillDraft>): (r: string)
    ensures |r| >= |TeachLabel| + |LearnLabel| + |BioLabel|
    ensures r[..|TeachLabel|] == TeachLabel
    ensures r[|r| - |BioLabel|..] == BioLabel
  {
    TeachLabel + TeachPart(skills) + LearnLabel + LearnPart(skills) + BioLabel + ""
  }

  /** With no skills both parts are empty: the text is the three labels alone. */
  lemma SkillTextOfNoSkills()
    ensures TeachPart([]) == "" && LearnPart([]) == ""
    ensures GenerateSkillText([]) == "Can teach: . Wants to learn: . Bio: "
  {
  }

  /** Skills of any kind other than teach and learn leave the text unchanged. */
  lemma SkillTextIgnoresOtherKinds(a: seq<SkillDraft>, s: SkillDraft, b: seq<SkillDraft>)
    requires s.kind != Some("teach") && s.kind != Some("learn")
    ensures GenerateSkillText(a + [s] + b) == GenerateSkillText(a + b)
  {
    NamesOfKindConcat(a + [s], b, "teach");
    NamesOfKindConcat(a, [s], "teach");
    NamesOfKindConcat(a, b, "teach");
    NamesOfKindConcat(a + [s], b, "learn");
    NamesOfKindConcat(a, [s], "learn");
    NamesOfKindConcat(a, b, "learn");
    NamesOfOne(s, "teach");
    NamesOfOne(s, "learn");
    assert a + [s] + b == (a + [s]) + b;
    assert NamesOfKind(a + [s], "teach") == NamesOfKind(a, "teach") + [];
    assert NamesOfKind(a + [s] + b, "teach") == NamesOfKind(a + b, "teach");
    assert NamesOfKind(a + [s], "learn") == NamesOfKind(a, "learn") + [];
    assert NamesOfKind(a + [s] + b, "learn") == NamesOfKind(a + b, "learn");
  }

  /** A teach skill added at the end joins the teach part after a ", " (or alone, when it is
      the first); the learn part is unchanged. */
  lemma SkillTextAddTeach(skills: seq<SkillDraft>, s: SkillDraft)
    requires s.kind == Some("teach")
    ensures GenerateSkillText(skills + [s]) ==
      TeachLabel
      + (if NamesOfKind(skills, "teach") == [] then NameText(s) else TeachPart(skills) + ", " + NameText(s))
      + LearnLabel + LearnPart(skills) + BioLabel
    ensures TeachPart(skills + [s]) ==
      if NamesOfKind(skills, "teach") == [] then NameText(s) else TeachPart(skills) + ", " + NameText(s)
    ensures LearnPart(skills + [s]) == LearnPart(skills)
  {
    NamesOfKindConcat(skills, [s], "teach");
    NamesOfKindConcat(skills, [s], "learn");
    NamesOfOne(s, "teach");
    NamesOfOne(s, "learn");
    assert "teach" != "learn";
    assert NamesOfKind(skills + [s], "learn") == NamesOfKind(skills, "learn") + [];
    assert NamesOfKind(skills + [s], "learn") == NamesOfKind(skills, "learn");
    if NamesOfKind(skills, "teach") != [] {
      JoinAppend(NamesOfKind(skills, "teach"), NameText(s), ", ");
    } else {
      assert NamesOfKind(skills + [s], "teach") == [NameText(s)];
    }
  }

  /** A learn skill added at the end joins the learn part after a ", " (or alone, when it is
      the first); the teach part is unchanged. */
  lemma SkillTextAddLearn(skills: seq<SkillDraft>, s: SkillDraft)
    requires s.kind == Some("learn")
    ensures GenerateSkillText(skills + [s]) ==
      TeachLabel + TeachPart(skills) + LearnLabel
      + (if NamesOfKind(skills, "learn") == [] then NameText(s) else LearnPart(skills) + ", " + NameText(s))
      + BioLabel
    ensures LearnPart(skills + [s]) ==
      if NamesOfKind(skills, "learn") == [] then NameText(s) else LearnPart(skills) + ", " + NameText(s)
    ensures TeachPart(skills + [s]) == TeachPart(skills)
  {
    NamesOfKindConcat(skills, [s], "teach");
    NamesOfKindConcat(skills, [s], "learn");
    NamesOfOne(s, "teach");
    NamesOfOne(s, "learn");
    assert "learn" != "teach";
    assert NamesOfKind(skills + [s], "teach") == NamesOfKind(skills, "teach") + [];
    assert NamesOfKind(skills + [s], "teach") == NamesOfKind(skills, "teach");
    if NamesOfKind(skills, "learn") != [] {
      JoinAppend(NamesOfKind(skills, "learn"), NameText(s), ", ");
    } else {
      assert NamesOfKind(skills + [s], "learn") == [NameText(s)];
    }
  }

  // ---------------------------------------------------------------------------
  // /signup and /signin

  /** The failures the routes answer with. */
  datatype AuthError =
    | UserAlreadyExists   // 400 "User already exists"
    | UserNotFound        // 404 "User not found"
    | InvalidCredentials  // 400 "Invalid credentials"
    | ServerError         // 500 "Something went wrong"

  /** A bio that is missing or all whitespace (`!bio || bio.trim() === ""`). */
  predicate BlankBio(bio: Option<string>) {
    bio.None? || IsBlank(bio.value)
  }

  /** The bio stored at signup: the given one unless it is blank and generation returned a
      truthy bio, in which case the generated one. `generated` is only consulted for a
      blank bio, as generation is only attempted then. */
  function FinalBio(bio: Option<string>, generated: Option<string>): (r: Option<string>)
    ensures !BlankBio(bio) ==> r == bio
    ensures BlankBio(bio) && Present(generated) ==> r == generated
    ensures BlankBio(bio) && !Present(generated) ==> r == bio
    ensures !BlankBio(r) ==> !BlankBio(bio) || r == generated
  {
    if BlankBio(bio) && Present(generated) then generated else bio
  }

  /** The position of the first user registered under `email`, if any. */
  function IndexOfEmail(users: seq<User>, email: string): (r: Option<nat>)
    ensures r.None? <==> !EmailRegistered(users, email)
    ensures r.Some? ==>
      r.value < |users| && users[r.value].email == email
      && forall j :: 0 <= j < r.value ==> users[j].email != email
  {
    if users == [] then None
    else if users[0].email == email then Some(0)
    else
      var rest := IndexOfEmail(users[1..], email);
      if rest.None? then None else Some(rest.value + 1)
  }

  /** The user `findOne({ email })` returns. A missing `email` is dropped from the filter,
      leaving `findOne({})`, which matches every user; the model returns the first one. */
  function LookupIndex(users: seq<User>, email: Option<string>): (r: Option<nat>)
    ensures r.None? <==> if email.None? then users == [] else !EmailRegistered(users, email.value)
    ensures r.Some? ==> r.value < |users|
    ensures r.Some? && email.Some? ==>
      users[r.value].email == email.value
      && forall j :: 0 <= j < r.value ==> users[j].email != email.value
  {
    if email.None? then (if users == [] then None else Some(0))
    else IndexOfEmail(users, email.value)
  }

  /** `findOne({ email })`: scans the registry for the first user with this email. */
  method FindByEmail(reg: UserRegistry, email: Option<string>) returns (idx: Option<nat>)
    ensures idx == LookupIndex(reg.users, email)
  {
    if email.None? {
      return if |reg.users| == 0 then None else Some(0);
    }
    var i := 0;
    while i < |reg.users|
      invariant 0 <= i <= |reg.users|
      invariant forall j :: 0 <= j < i ==> reg.users[j].email != email.value
    {
      if reg.users[i].email == email.value {
        return Some(i);
      }
      i := i + 1;
    }
    return None;
  }

  /** `/signup`. A lookup that finds a user fails and changes nothing; with no email that
      is any registered user. Otherwise the password is hashed (a missing password makes
      hashing fail) and the user record is validated with the bio from `FinalBio`, the skills
      as given and 5 credits; a record that does not validate fails and changes nothing, a
      valid one is added. */
  method Signup(reg: UserRegistry, username: Option<string>, email: Option<string>, password: Option<string>,
                bio: Option<string>, skills: Option<seq<SkillDraft>>, generatedBio: Option<string>,
                hash: string -> string)
    returns (r: Result<User, AuthError>)
    requires reg.Valid()
    modifies reg
    ensures reg.Valid()
    ensures LookupIndex(old(reg.users), email).Some? ==>
      r == Failure(UserAlreadyExists) && reg.users == old(reg.users)
    ensures LookupIndex(old(reg.users), email).None? && password.None? ==>
      r == Failure(ServerError) && reg.users == old(reg.users)
    ensures LookupIndex(old(reg.users), email).None? && password.Some? ==>
      var record := NewUser(UserDraft(username, email, Some(hash(password.value)),
                                      FinalBio(bio, generatedBio), skills, Some(DefaultCredits)));
      && (record.None? ==> r == Failure(ServerError) && reg.users == old(reg.users))
      && (record.Some? ==> r == Success(record.value) && reg.users == old(reg.users) + [record.value])
    ensures email.None? ==>
      reg.users == old(reg.users)
      && r == (if old(reg.users) == [] then Failure(ServerError) else Failure(UserAlreadyExists))
    ensures r.Success? ==>
      email.Some? && r.value.email == email.value && r.value.credits == 5 && r.value.ratings == []
      && r.value.bio == FinalBio(bio, generatedBio)
  {
    var existing := FindByEmail(reg, email);
    if existing.Some? {
      return Failure(UserAlreadyExists);
    }
    if password.None? {
      return Failure(ServerError);
    }
    var record := NewUser(UserDraft(username, email, Some(hash(password.value)),
                                    FinalBio(bio, generatedBio), skills, Some(DefaultCredits)));
    if record.None? {
      return Failure(ServerError);
    }
    AddUserKeepsEmailsUnique(reg.users, record.value);
    reg.users := reg.users + [record.value];
    r := Success(record.value);
  }

  /** `/signin`: a lookup that finds nobody is "not found"; a missing password makes the hash
      comparison fail; a found user whose stored hash does not match the password is
      "invalid credentials"; otherwise that user is returned. With no email the lookup
      finds any registered user. */
  method Signin(reg: UserRegistry, email: Option<string>, password: Option<string>,
                passwordMatches: (string, string) -> bool)
    returns (r: Result<User, AuthError>)
    ensures r == Failure(UserNotFound) <==> LookupIndex(reg.users, email).None?
    ensures r == Failure(ServerError) <==> LookupIndex(reg.users, email).Some? && password.None?
    ensures r == Failure(InvalidCredentials) <==>
      LookupIndex(reg.users, email).Some? && password.Some?
      && !passwordMatches(password.value, reg.users[LookupIndex(reg.users, email).value].password)
    ensures r.Success? ==>
      && LookupIndex(reg.users, email).Some?
      && r.value == reg.users[LookupIndex(reg.users, email).value]
      && password.Some? && passwordMatches(password.value, r.value.password)
      && (email.Some? ==> r.value.email == email.value)
      && (email.None? ==> r.value == reg.users[0])
    ensures r.Failure? ==> r.error != UserAlreadyExists
  {
    var idx := FindByEmail(reg, email);
    if idx.None? {
      return Failure(UserNotFound);
    }
    var user := reg.users[idx.value];
    if password.None? {
      return Failure(ServerError);
    }
    if !passwordMatches(password.value, user.password) {
      return Failure(InvalidCredentials);
    }
    r := Success(user);
  }
}
