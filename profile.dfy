/** The profile collection and the `/profile` handlers: field assembly, create-or-update,
    the lookups, and the experience and education lists edited in place. */
module Profiles {
  import opened Common
  import opened Strings
  import opened Arrays
  import opened Users

  /** `profileFields.social`: each link is present or absent. */
  datatype Social = Social(
    youtube: Option<string>, twitter: Option<string>, facebook: Option<string>,
    linkedin: Option<string>, instagram: Option<string>)

  /** `profileFields`: the keys a create-or-update request sets. */
  datatype ProfileFields = ProfileFields(
    user: string,
    handle: Option<string>, company: Option<string>, website: Option<string>,
    location: Option<string>, bio: Option<string>, status: Option<string>,
    githubusername: Option<string>,
    skills: Option<seq<string>>,
    social: Social)

  /** An entry of a profile's experience list; its fields are copied from the body as sent. */
  datatype Experience = Experience(
    id: string, title: Option<string>, company: Option<string>, location: Option<string>,
    from: Option<string>, to: Option<string>, current: Option<string>, description: Option<string>)

  /** An entry of a profile's education list. */
  datatype Education = Education(
    id: string, school: Option<string>, degree: Option<string>, fieldofstudy: Option<string>,
    from: Option<string>, to: Option<string>, current: Option<string>, description: Option<string>)

  /** A stored profile document. */
  datatype Profile = Profile(fields: ProfileFields, experience: seq<Experience>, education: seq<Education>)

  const NoProfileMessage := "There is no profile for this user"

  /** The `errors` object of a failed profile lookup. */
  const NoProfileErrors: ErrorMap := map["noprofile" := NoProfileMessage]

  /** The answers of the profile handlers. */
  datatype ProfileReply =
    | Found(profile: Profile)          // the document, status 200
    | AllProfiles(list: set<Profile>)  // every document, status 200
    | Invalid(errors: ErrorMap)        // the validator's errors, status 400
    | NoProfile(errors: ErrorMap)      // status 404
  {
    function Status(): nat
    {
      match this
      case Invalid(_) => 400
      case NoProfile(_) => 404
      case _ => 200
    }
  }

  /** The text field `key` of `profileFields` is set, to the body's value, exactly when
      that value is truthy (the rule `TextField` states). */
  predicate CopiedIfTruthy(o: Option<string>, body: Body, key: string)
  {
    o == TextField(body, key)
  }

  /** `body[key]` when it is truthy, and no value otherwise. */
  function TextField(body: Body, key: string): Option<string>
  {
    if Truthy(body, key) then Some(body[key]) else None
  }

  /** The field assembly as a value: what the field-by-field assignments build. */
  function FieldsOf(uid: string, body: Body): ProfileFields
  {
    ProfileFields(
      uid,
      TextField(body, "handle"),
      TextField(body, "company"),
      TextField(body, "website"),
      TextField(body, "location"),
      TextField(body, "bio"),
      TextField(body, "status"),
      TextField(body, "githubusername"),
      if "skills" in body then Some(Split(body["skills"])) else None,
      Social(
        TextField(body, "youtube"),
        TextField(body, "twitter"),
        TextField(body, "facebook"),
        TextField(body, "linkedin"),
        TextField(body, "instagram")))
  }

  /** What the assembly promises: `user` is the authenticated id; each text field and each
      social link is present exactly when the body's value is truthy; `social` is always
      there; `skills` is present exactly when the body has the key (an empty string
      included), and then it is a list of comma-free pieces that join back to the string sent. */
  lemma AssembledFields(uid: string, body: Body)
    ensures var f := FieldsOf(uid, body);
      && f.user == uid
      && CopiedIfTruthy(f.handle, body, "handle")
      && CopiedIfTruthy(f.company, body, "company")
      && CopiedIfTruthy(f.website, body, "website")
      && CopiedIfTruthy(f.location, body, "location")
      && CopiedIfTruthy(f.bio, body, "bio")
      && CopiedIfTruthy(f.status, body, "status")
      && CopiedIfTruthy(f.githubusername, body, "githubusername")
      && (f.skills.Some? <==> "skills" in body)
      && (f.skills.Some? ==> CommaFree(f.skills.value) && Join(f.skills.value) == body["skills"])
      && CopiedIfTruthy(f.social.youtube, body, "youtube")
      && CopiedIfTruthy(f.social.twitter, body, "twitter")
      && CopiedIfTruthy(f.social.facebook, body, "facebook")
      && CopiedIfTruthy(f.social.linkedin, body, "linkedin")
      && CopiedIfTruthy(f.social.instagram, body, "instagram")
  {
    if "skills" in body {
      JoinSplit(body["skills"]);
    }
  }

  /** The assembly fixes the stored skills: any comma-free list joining to the string sent
      is the one the split produced. */
  lemma AssembledSkillsDetermined(uid: string, body: Body, skills: seq<string>)
    requires "skills" in body
    requires |skills| >= 1 && CommaFree(skills) && Join(skills) == body["skills"]
    ensures FieldsOf(uid, body).skills == Some(skills)
  {
    SplitJoin(skills);
  }

  /** `if (req.body[key]) profileFields[key] = req.body[key]`: one conditional assignment. */
  method CopyIfTruthy(body: Body, key: string) returns (o: Option<string>)
    ensures CopiedIfTruthy(o, body, key)
  {
    o := None;
    if Truthy(body, key) {
      o := Some(body[key]);
    }
  }

  /** Building `profileFields.social`: an empty object, then one link at a time. */
  method AssembleSocial(body: Body) returns (social: Social)
    ensures social == FieldsOf("", body).social
  {
    var youtube := CopyIfTruthy(body, "youtube");
    var twitter := CopyIfTruthy(body, "twitter");
    var facebook := CopyIfTruthy(body, "facebook");
    var linkedin := CopyIfTruthy(body, "linkedin");
    var instagram := CopyIfTruthy(body, "instagram");
    social := Social(youtube, twitter, facebook, linkedin, instagram);
  }

  /** Building `profileFields` one conditional assignment at a time. */
  method AssembleFields(uid: string, body: Body) returns (f: ProfileFields)
    ensures f == FieldsOf(uid, body)
  {
    var handle := CopyIfTruthy(body, "handle");
    var company := CopyIfTruthy(body, "company");
    var website := CopyIfTruthy(body, "website");
    var location := CopyIfTruthy(body, "location");
    var bio := CopyIfTruthy(body, "bio");
    var status := CopyIfTruthy(body, "status");
    var githubusername := CopyIfTruthy(body, "githubusername");
    var skills: Option<seq<string>> := None;
    if "skills" in body {
      skills := Some(Split(body["skills"]));
    }
    var social := AssembleSocial(body);
    f := ProfileFields(uid, handle, company, website, location, bio, status, githubusername,
                       skills, social);
  }

  /** A key that `$set` writes when it is present and leaves alone when it is absent. */
  function SetIfPresent<T>(current: Option<T>, update: Option<T>): Option<T>
  {
    if update.Some? then update else current
  }

  /** After `$set`, a key holds the update's value when the update has the key, and
      its value from before otherwise. */
  predicate SetOrKept<T(==)>(before: Option<T>, update: Option<T>, after: Option<T>)
  {
    (update.Some? ==> after == update) && (update.None? ==> after == before)
  }

  /** `$set: profileFields` on an existing profile: every key the assembly set is
      overwritten (`user` and `social` always are), every other key is kept, and so are
      the experience and education lists. */
  function Merge(p: Profile, f: ProfileFields): (r: Profile)
    ensures r.fields.user == f.user && r.fields.social == f.social
    ensures SetOrKept(p.fields.handle, f.handle, r.fields.handle)
    ensures SetOrKept(p.fields.company, f.company, r.fields.company)
    ensures SetOrKept(p.fields.website, f.website, r.fields.website)
    ensures SetOrKept(p.fields.location, f.location, r.fields.location)
    ensures SetOrKept(p.fields.bio, f.bio, r.fields.bio)
    ensures SetOrKept(p.fields.status, f.status, r.fields.status)
    ensures SetOrKept(p.fields.githubusername, f.githubusername, r.fields.githubusername)
    ensures SetOrKept(p.fields.skills, f.skills, r.fields.skills)
    ensures r.experience == p.experience && r.education == p.education
  {
    p.(fields := ProfileFields(
      f.user,
      SetIfPresent(p.fields.handle, f.handle),
      SetIfPresent(p.fields.company, f.company),
      SetIfPresent(p.fields.website, f.website),
      SetIfPresent(p.fields.location, f.location),
      SetIfPresent(p.fields.bio, f.bio),
      SetIfPresent(p.fields.status, f.status),
      SetIfPresent(p.fields.githubusername, f.githubusername),
      SetIfPresent(p.fields.skills, f.skills),
      f.social))
  }

  /** A new profile made of the assembled fields, with empty experience and education lists. */
  function NewProfile(f: ProfileFields): Profile
  {
    Profile(f, [], [])
  }

  /** Updating twice with the same fields is the same as updating once, and updating a
      profile that was just created from some fields with those fields changes nothing. */
  lemma MergeIdempotent(p: Profile, f: ProfileFields)
    ensures Merge(Merge(p, f), f) == Merge(p, f)
    ensures Merge(NewProfile(f), f) == NewProfile(f)
  {
  }

  /** The experience entry built from the body, with the id the database gives it. */
  function ExperienceOf(id: string, body: Body): Experience
  {
    Experience(id, Get(body, "title"), Get(body, "company"), Get(body, "location"),
               Get(body, "from"), Get(body, "to"), Get(body, "current"), Get(body, "description"))
  }

  /** The education entry built from the body, with the id the database gives it. */
  function EducationOf(id: string, body: Body): Education
  {
    Education(id, Get(body, "school"), Get(body, "degree"), Get(body, "fieldofstudy"),
              Get(body, "from"), Get(body, "to"), Get(body, "current"), Get(body, "description"))
  }

  /** `experience.map(item => item.id)`. */
  function ExperienceIds(s: seq<Experience>): seq<string>
  {
    seq(|s|, i requires 0 <= i < |s| => s[i].id)
  }

  /** `education.map(item => item.id)`. */
  function EducationIds(s: seq<Education>): seq<string>
  {
    seq(|s|, i requires 0 <= i < |s| => s[i].id)
  }

  /** The profiles collection, one document per user id. */
  class ProfileStore {
    var profiles: map<string, Profile>

    /** Each profile is stored under the id of its `user`. */
    ghost predicate Valid()
      reads this
    {
      forall uid :: uid in profiles ==> profiles[uid].fields.user == uid
    }

    constructor ()
      ensures Valid() && profiles == map[]
    {
      profiles := map[];
    }

    /** `GET /profile` for the authenticated user, and `GET /profile/user/:user_id`. */
    method FindByUser(uid: string) returns (r: ProfileReply)
      requires Valid()
      ensures r.NoProfile? <==> uid !in profiles
      ensures r.Found? ==> r.profile.fields.user == uid
      ensures r.NoProfile? ==> r.errors == NoProfileErrors && r.Status() == 404
      ensures !r.NoProfile? ==> r == Found(profiles[uid]) && r.Status() == 200
    {
      if uid !in profiles {
        var errors: ErrorMap := map[];
        errors := errors["noprofile" := NoProfileMessage];
        return NoProfile(errors);
      }
      r := Found(profiles[uid]);
    }

    /** `GET /profile/handle/:handle`: a profile whose handle is `handle`, if there is one. */
    method FindByHandle(handle: string) returns (r: ProfileReply)
      ensures r.NoProfile? <==> forall uid :: uid in profiles ==> profiles[uid].fields.handle != Some(handle)
      ensures r.NoProfile? ==> r.errors == NoProfileErrors && r.Status() == 404
      ensures !r.NoProfile? ==>
        r.Found? && r.profile in profiles.Values && r.profile.fields.handle == Some(handle)
    {
      if uid :| uid in profiles && profiles[uid].fields.handle == Some(handle) {
        r := Found(profiles[uid]);
      } else {
        var errors: ErrorMap := map[];
        errors := errors["noprofile" := NoProfileMessage];
        r := NoProfile(errors);
      }
    }

    /** `GET /profile/all`: the list found is an array, which is always truthy, so the
        not-found branch never answers. */
    method All() returns (r: ProfileReply)
      ensures r.AllProfiles? && r.list == profiles.Values && r.Status() == 200
    {
      r := AllProfiles(profiles.Values);
    }

    /** `POST /profile`: validate, assemble the fields, and update the user's profile
        or create it. */
    method CreateOrUpdate(uid: string, body: Body, validate: Body -> Validation) returns (r: ProfileReply)
      requires Valid()
      modifies this
      ensures Valid()
      ensures !validate(body).isValid ==>
        r == Invalid(validate(body).errors) && r.Status() == 400 && profiles == old(profiles)
      ensures validate(body).isValid ==>
        var f := FieldsOf(uid, body);
        var p := if uid in old(profiles) then Merge(old(profiles)[uid], f) else NewProfile(f);
        r == Found(p) && profiles == old(profiles)[uid := p]
    {
      var v := validate(body);
      if !v.isValid {
        return Invalid(v.errors);
      }
      var f := AssembleFields(uid, body);
      if uid in profiles {
        var updated := Merge(profiles[uid], f);
        profiles := profiles[uid := updated];
        r := Found(updated);
      } else {
        var created := NewProfile(f);
        profiles := profiles[uid := created];
        r := Found(created);
      }
    }

    /** `POST /profile/experience`: the new entry goes first. The profile must exist;
        `id` is the id the database gives the entry. */
    method AddExperience(uid: string, body: Body, validate: Body -> Validation, id: string)
      returns (r: ProfileReply)
      requires Valid() && uid in profiles
      modifies this
      ensures Valid()
      ensures !validate(body).isValid ==>
        r == Invalid(validate(body).errors) && r.Status() == 400 && profiles == old(profiles)
      ensures validate(body).isValid ==>
        var before := old(profiles)[uid];
        uid in profiles &&
        var after := profiles[uid];
        && profiles == old(profiles)[uid := after]
        && after.fields == before.fields && after.education == before.education
        && |after.experience| == |before.experience| + 1
        && after.experience[0] == ExperienceOf(id, body)
        && after.experience[1..] == before.experience
        && r == Found(after)
    {
      var v := validate(body);
      if !v.isValid {
        return Invalid(v.errors);
      }
      var p := profiles[uid];
      var newExp := ExperienceOf(id, body);
      p := p.(experience := Unshift(p.experience, newExp));
      profiles := profiles[uid := p];
      r := Found(p);
    }

    /** `POST /profile/education`: the new entry goes first. The profile must exist;
        `id` is the id the database gives the entry. */
    method AddEducation(uid: string, body: Body, validate: Body -> Validation, id: string)
      returns (r: ProfileReply)
      requires Valid() && uid in profiles
      modifies this
      ensures Valid()
      ensures !validate(body).isValid ==>
        r == Invalid(validate(body).errors) && r.Status() == 400 && profiles == old(profiles)
      ensures validate(body).isValid ==>
        var before := old(profiles)[uid];
        uid in profiles &&
        var after := profiles[uid];
        && profiles == old(profiles)[uid := after]
        && after.fields == before.fields && after.experience == before.experience
        && |after.education| == |before.education| + 1
        && after.education[0] == EducationOf(id, body)
        && after.education[1..] == before.education
        && r == Found(after)
    {
      var v := validate(body);
      if !v.isValid {
        return Invalid(v.errors);
      }
      var p := profiles[uid];
      var newEdu := EducationOf(id, body);
      p := p.(education := Unshift(p.education, newEdu));
      profiles := profiles[uid := p];
      r := Found(p);
    }

    /** `DELETE /profile/experience/:exp_id`: `splice(indexOf(expId), 1)`. The entry with
        the first matching id is removed; when no entry has that id, the last one is. */
    method DeleteExperience(uid: string, expId: string) returns (r: ProfileReply)
      requires Valid() && uid in profiles
      modifies this
      ensures Valid()
      ensures
        var before := old(profiles)[uid];
        uid in profiles &&
        var after := profiles[uid];
        && profiles == old(profiles)[uid := after]
        && after.fields == before.fields && after.education == before.education
        && DeletedFirstOrLast(before.experience, ExperienceIds(before.experience), expId, after.experience)
        && |after.experience| == (if before.experience == [] then 0 else |before.experience| - 1)
        && r == Found(after)
    {
      var p := profiles[uid];
      var ids := ExperienceIds(p.experience);
      var removeIndex := IndexOf(ids, expId);
      SpliceAtIndexOf(p.experience, ids, expId);
      p := p.(experience := SpliceOne(p.experience, removeIndex));
      profiles := profiles[uid := p];
      r := Found(p);
    }

    /** `DELETE /profile/education/:edu_id`: `splice(indexOf(eduId), 1)`. The entry with
        the first matching id is removed; when no entry has that id, the last one is. */
    method DeleteEducation(uid: string, eduId: string) returns (r: ProfileReply)
      requires Valid() && uid in profiles
      modifies this
      ensures Valid()
      ensures
        var before := old(profiles)[uid];
        uid in profiles &&
        var after := profiles[uid];
        && profiles == old(profiles)[uid := after]
        && after.fields == before.fields && after.experience == before.experience
        && DeletedFirstOrLast(before.education, EducationIds(before.education), eduId, after.education)
        && |after.education| == (if before.education == [] then 0 else |before.education| - 1)
        && r == Found(after)
    {
      var p := profiles[uid];
      var ids := EducationIds(p.education);
      var removeIndex := IndexOf(ids, eduId);
      SpliceAtIndexOf(p.education, ids, eduId);
      p := p.(education := SpliceOne(p.education, removeIndex));
      profiles := profiles[uid := p];
      r := Found(p);
    }

    /** `findOneAndRemove({user: uid})`. */
    method DeleteProfile(uid: string)
      requires Valid()
      modifies this
      ensures Valid()
      ensures profiles == old(profiles) - {uid}
    {
      profiles := profiles - {uid};
    }
  }

  /** `DELETE /profile`: remove the user's profile, then the user, and answer
      `{success: true}`. The two removals are separate steps with nothing tying them
      together; run one after the other they leave neither the profile nor the user. */
  method DeleteAccount(store: ProfileStore, accounts: UserStore, uid: string) returns (success: bool)
    requires store.Valid() && accounts.Valid()
    modifies store, accounts
    ensures store.Valid() && accounts.Valid()
    ensures store.profiles == old(store.profiles) - {uid}
    ensures accounts.users == RemoveFirstId(old(accounts.users), uid)
    ensures uid !in store.profiles && FindById(accounts.users, uid).None?
    ensures success
  {
    store.DeleteProfile(uid);
    accounts.DeleteById(uid);
    success := true;
  }
}
