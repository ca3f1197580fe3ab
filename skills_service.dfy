/**
 * The skills a freelancer offers: adding one (freelancers only), listing,
 * fetching, updating and deleting a user's skills, and turning the skills
 * that match a search into the list of their owners.
 *
 * The skills table is a field of the service; the user lookup and the search
 * query are not modelled, and what they return is a parameter.
 */
module SkillsService {
  import opened Wrappers

  datatype User = User(id: string, role: string)

  datatype Skill = Skill(
    id: string,
    title: string,
    description: string,
    price: int,
    isAvailable: bool,
    owner: Option<User>)

  /** The body of a request that adds a skill. */
  datatype NewSkill = NewSkill(title: string, description: string, price: int, isAvailable: bool)

  /** The body of a request that updates a skill: only the fields present are changed. */
  datatype SkillChanges = SkillChanges(
    title: Option<string>,
    description: Option<string>,
    price: Option<int>,
    isAvailable: Option<bool>)

  datatype ServiceError = NotFound(message: string) | BadRequest(message: string)

  predicate OwnedBy(skill: Skill, userId: string) {
    skill.owner.Some? && skill.owner.value.id == userId
  }

  /** The position of the first skill with that id owned by that user. */
  function IndexOf(table: seq<Skill>, userId: string, id: string): (r: Option<nat>)
    ensures r.Some? ==> r.value < |table| && table[r.value].id == id && OwnedBy(table[r.value], userId)
    ensures r.Some? ==> forall j :: 0 <= j < r.value ==> !(table[j].id == id && OwnedBy(table[j], userId))
    ensures r.None? <==> forall j :: 0 <= j < |table| ==> !(table[j].id == id && OwnedBy(table[j], userId))
  {
    if |table| == 0 then None
    else if table[0].id == id && OwnedBy(table[0], userId) then Some(0)
    else
      match IndexOf(table[1..], userId, id)
      case None => None
      case Some(i) => Some(i + 1)
  }

  /** `Object.assign(skill, changes)`: exactly the fields present in the changes are overwritten. */
  function Assign(skill: Skill, changes: SkillChanges): (r: Skill)
    ensures r.id == skill.id && r.owner == skill.owner
    ensures r.title == changes.title.GetOr(skill.title)
    ensures r.description == changes.description.GetOr(skill.description)
    ensures r.price == changes.price.GetOr(skill.price)
    ensures r.isAvailable == changes.isAvailable.GetOr(skill.isAvailable)
    ensures changes == SkillChanges(None, None, None, None) ==> r == skill
  {
    skill.(
      title := changes.title.GetOr(skill.title),
      description := changes.description.GetOr(skill.description),
      price := changes.price.GetOr(skill.price),
      isAvailable := changes.isAvailable.GetOr(skill.isAvailable))
  }

  /** Applying the same changes twice is applying them once. */
  lemma AssignIdempotent(skill: Skill, changes: SkillChanges)
    ensures Assign(Assign(skill, changes), changes) == Assign(skill, changes)
  {
  }

  /** The ids of the owners of `skills`, each once, in order of first appearance. */
  function OwnerIds(skills: seq<Skill>): (ids: seq<string>)
    ensures forall a, b :: 0 <= a < b < |ids| ==> ids[a] != ids[b]
  {
    if |skills| == 0 then []
    else
      var prev := OwnerIds(skills[..|skills| - 1]);
      var last := skills[|skills| - 1];
      if last.owner.None? || last.owner.value.id in prev then prev else prev + [last.owner.value.id]
  }

  /** The owner with that id of the last skill in `skills` owned by such a user. */
  function LastOwner(skills: seq<Skill>, id: string): (r: Option<User>)
    ensures r.Some? ==> r.value.id == id
  {
    if |skills| == 0 then None
    else if OwnedBy(skills[|skills| - 1], id) then skills[|skills| - 1].owner
    else LastOwner(skills[..|skills| - 1], id)
  }

  /** An id is listed exactly when some skill has an owner with that id, and that owner is known. */
  lemma {:induction false} OwnerIdsCover(skills: seq<Skill>, id: string)
    ensures id in OwnerIds(skills) <==> exists j :: 0 <= j < |skills| && OwnedBy(skills[j], id)
    ensures id in OwnerIds(skills) <==> LastOwner(skills, id).Some?
  {
    if |skills| > 0 {
      var init := skills[..|skills| - 1];
      OwnerIdsCover(init, id);
      assert forall j :: 0 <= j < |init| ==> init[j] == skills[j];
    }
  }

  /** The skills service, over the skills table. */
  class Service {
    var table: seq<Skill>

    constructor (initial: seq<Skill>)
      ensures table == initial
    {
      table := initial;
    }

    /**
     * `create`: a missing user is NotFound, a user who is not a freelancer is
     * refused; otherwise the new skill, with the request's fields and owned by
     * that user, is saved under the id the database gives it.
     */
    method Create(user: Option<User>, body: NewSkill, newId: string) returns (r: Result<Skill, ServiceError>)
      modifies this
      ensures user.None? ==> r == Err(NotFound("User not found")) && table == old(table)
      ensures user.Some? && user.value.role != "freelancer" ==>
        r == Err(BadRequest("Only freelancers can add skills")) && table == old(table)
      ensures r.Ok? <==> user.Some? && user.value.role == "freelancer"
      ensures r.Ok? ==>
        r.value == Skill(newId, body.title, body.description, body.price, body.isAvailable, user) &&
        table == old(table) + [r.value]
    {
      if user.None? {
        return Err(NotFound("User not found"));
      }
      if user.value.role != "freelancer" {
        return Err(BadRequest("Only freelancers can add skills"));
      }
      var skill := Skill(newId, body.title, body.description, body.price, body.isAvailable, user);
      table := table + [skill];
      r := Ok(skill);
    }

    /** `findAll`: the user's skills, in table order. */
    function FindAll(userId: string): (r: seq<Skill>)
      reads this
      ensures forall s :: s in r ==> s in table && OwnedBy(s, userId)
      ensures forall s :: s in table && OwnedBy(s, userId) ==> s in r
    {
      Owned(table, userId)
    }

    /** `findOne`: the skill with that id if it belongs to that user, NotFound otherwise. */
    function FindOne(userId: string, id: string): (r: Result<Skill, ServiceError>)
      reads this
      ensures r.Ok? <==> exists j :: 0 <= j < |table| && table[j].id == id && OwnedBy(table[j], userId)
      ensures r.Ok? ==> r.value in table && r.value.id == id && OwnedBy(r.value, userId)
      ensures r.Err? ==> r == Err(NotFound("Skill with ID " + id + " not found for user " + userId))
    {
      match IndexOf(table, userId, id)
      case None => Err(NotFound("Skill with ID " + id + " not found for user " + userId))
      case Some(i) => Ok(table[i])
    }

    /** `update`: the user's skill gets the changes; someone else's skill, or none, is NotFound. */
    method Update(userId: string, id: string, changes: SkillChanges) returns (r: Result<Skill, ServiceError>)
      modifies this
      ensures old(FindOne(userId, id)).Err? ==> r == old(FindOne(userId, id)) && table == old(table)
      ensures old(FindOne(userId, id)).Ok? ==>
        var i := IndexOf(old(table), userId, id).value;
        r == Ok(Assign(old(table)[i], changes)) && table == old(table)[i := Assign(old(table)[i], changes)]
    {
      var found := IndexOf(table, userId, id);
      if found.None? {
        return FindOne(userId, id);
      }
      var i := found.value;
      var skill := Assign(table[i], changes);
      table := table[i := skill];
      r := Ok(skill);
    }

    /** `remove`: the user's skill leaves the table; someone else's skill, or none, is NotFound. */
    method Remove(userId: string, id: string) returns (r: Result<(), ServiceError>)
      modifies this
      ensures old(FindOne(userId, id)).Err? ==> r == Err(old(FindOne(userId, id)).error) && table == old(table)
      ensures old(FindOne(userId, id)).Ok? ==>
        var i := IndexOf(old(table), userId, id).value;
        r == Ok(()) && table == old(table)[..i] + old(table)[i + 1..]
    {
      var found := IndexOf(table, userId, id);
      if found.None? {
        return Err(FindOne(userId, id).error);
      }
      var i := found.value;
      table := table[..i] + table[i + 1..];
      r := Ok(());
    }
  }

  /** The skills of `table` owned by that user, in order. */
  function Owned(table: seq<Skill>, userId: string): (r: seq<Skill>)
    ensures forall s :: s in r ==> s in table && OwnedBy(s, userId)
    ensures forall s :: s in table && OwnedBy(s, userId) ==> s in r
  {
    if |table| == 0 then []
    else
      var rest := Owned(table[1..], userId);
      assert forall s :: s in table[1..] ==> s in table;
      assert forall s :: s in table ==> s == table[0] || s in table[1..];
      if OwnedBy(table[0], userId) then [table[0]] + rest else rest
  }

  /**
   * `searchUsersBySkill`, given the skills the search matched: their owners,
   * each once, in order of first appearance, each as it appears on the last
   * matched skill it owns; skills without an owner are skipped.
   */
  method SearchUsersBySkill(matched: seq<Skill>) returns (users: seq<User>)
    ensures |users| == |OwnerIds(matched)|
    ensures forall j :: 0 <= j < |users| ==> users[j].id == OwnerIds(matched)[j]
    ensures forall j :: 0 <= j < |users| ==> LastOwner(matched, users[j].id) == Some(users[j])
    ensures forall a, b :: 0 <= a < b < |users| ==> users[a].id != users[b].id
    ensures forall s :: s in matched && s.owner.Some? ==> exists j :: 0 <= j < |users| && users[j].id == s.owner.value.id
  {
    var unique: map<string, User> := map[];
    var order: seq<string> := [];
    var i := 0;
    while i < |matched|
      invariant 0 <= i <= |matched|
      invariant order == OwnerIds(matched[..i])
      invariant forall k :: k in unique <==> k in order
      invariant forall k :: k in unique ==> LastOwner(matched[..i], k) == Some(unique[k])
    {
      var skill := matched[i];
      assert matched[..i + 1][..i] == matched[..i];
      assert matched[..i + 1][i] == skill;
      if skill.owner.Some? {
        OwnerIdsCover(matched[..i], skill.owner.value.id);
        unique := unique[skill.owner.value.id := skill.owner.value];
        if skill.owner.value.id !in order {
          order := order + [skill.owner.value.id];
        }
      }
      i := i + 1;
    }
    assert matched[..i] == matched;
    users := seq(|order|, j requires 0 <= j < |order| => unique[order[j]]);
    forall s | s in matched && s.owner.Some?
      ensures exists j :: 0 <= j < |users| && users[j].id == s.owner.value.id
    {
      var k :| 0 <= k < |matched| && matched[k] == s;
      OwnerIdsCover(matched, s.owner.value.id);
      var j :| 0 <= j < |order| && order[j] == s.owner.value.id;
      assert users[j].id == s.owner.value.id;
    }
  }
}
