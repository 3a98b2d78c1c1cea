/** The ACL edit page: the user and role selections (row toggles and the
    select-all header), the state loaded from an ACL, and the update payload
    that turns the selected ids back into user and role objects. */
module AclEditor {
  import opened Wrappers
  import opened Lists

  /** A user or a role; only the id matters to the selection. */
  datatype Member = Member(id: string, name: string, detail: string)

  datatype Acl = Acl(name: Option<string>, description: Option<string>, itemType: Option<string>,
                     itemId: Option<string>, seePermission: Option<bool>, accessPermission: Option<bool>, modifyPermission: Option<bool>,
                     everyone: Option<bool>, users: seq<Member>, roles: seq<Member>)

  datatype Page = Page(acl: Option<Acl>, name: Option<string>, description: Option<string>, itemType: string,
                       itemId: string, seePermission: bool, accessPermission: bool, modifyPermission: bool, everyone: bool,
                       allUsers: seq<Member>, selectedUsers: seq<string>,
                       allRoles: seq<Member>, selectedRoles: seq<string>)

  /** `xs.map(m => m.id)`. */
  function Ids(xs: seq<Member>): (r: seq<string>)
    ensures |r| == |xs| && forall i :: 0 <= i < |xs| ==> r[i] == xs[i].id
  {
    seq(|xs|, i requires 0 <= i < |xs| => xs[i].id)
  }

  /** The state `fetchData` sets from the ACL: texts with `|| ''`, flags
      with `|| false`, and the selections as the ids of the ACL's users and
      roles, in order. */
  function Load(p: Page, allUsers: seq<Member>, allRoles: seq<Member>, acl: Acl): (r: Page)
    ensures r.acl == Some(acl) && r.allUsers == allUsers && r.allRoles == allRoles
    ensures r.name == acl.name && r.description == acl.description
    ensures r.itemType == acl.itemType.GetOr("") && r.itemId == acl.itemId.GetOr("")
    ensures r.seePermission == acl.seePermission.GetOr(false) && r.accessPermission == acl.accessPermission.GetOr(false) &&
            r.modifyPermission == acl.modifyPermission.GetOr(false) && r.everyone == acl.everyone.GetOr(false)
    ensures |r.selectedUsers| == |acl.users| && forall i :: 0 <= i < |acl.users| ==> r.selectedUsers[i] == acl.users[i].id
    ensures |r.selectedRoles| == |acl.roles| && forall i :: 0 <= i < |acl.roles| ==> r.selectedRoles[i] == acl.roles[i].id
  {
    Page(Some(acl), acl.name, acl.description, acl.itemType.GetOr(""), acl.itemId.GetOr(""),
         acl.seePermission.GetOr(false), acl.accessPermission.GetOr(false), acl.modifyPermission.GetOr(false), acl.everyone.GetOr(false),
         allUsers, Ids(acl.users), allRoles, Ids(acl.roles))
  }

  /** `handleUserChange`. */
  function ToggleUser(p: Page, userId: string): (r: Page)
    ensures userId in r.selectedUsers <==> userId !in p.selectedUsers
    ensures forall u :: u != userId ==> (u in r.selectedUsers <==> u in p.selectedUsers)
    ensures r.selectedRoles == p.selectedRoles
  {
    p.(selectedUsers := Toggle(p.selectedUsers, userId))
  }

  /** `handleRoleChange`. */
  function ToggleRole(p: Page, roleId: string): (r: Page)
    ensures roleId in r.selectedRoles <==> roleId !in p.selectedRoles
    ensures forall u :: u != roleId ==> (u in r.selectedRoles <==> u in p.selectedRoles)
    ensures r.selectedUsers == p.selectedUsers
  {
    p.(selectedRoles := Toggle(p.selectedRoles, roleId))
  }

  /** The select-all box above the users table. */
  function SelectAllUsers(p: Page, checked: bool): (r: Page)
    ensures checked ==> forall u :: u in r.selectedUsers <==> exists i :: 0 <= i < |p.allUsers| && p.allUsers[i].id == u
    ensures !checked ==> r.selectedUsers == []
    ensures r.selectedRoles == p.selectedRoles
  {
    p.(selectedUsers := if checked then Ids(p.allUsers) else [])
  }

  /** The select-all box above the roles table. */
  function SelectAllRoles(p: Page, checked: bool): (r: Page)
    ensures checked ==> forall u :: u in r.selectedRoles <==> exists i :: 0 <= i < |p.allRoles| && p.allRoles[i].id == u
    ensures !checked ==> r.selectedRoles == []
    ensures r.selectedUsers == p.selectedUsers
  {
    p.(selectedRoles := if checked then Ids(p.allRoles) else [])
  }

  function HasId(id: string): Member -> bool {
    (m: Member) => m.id == id
  }

  /** `ids.map(id => all.find(m => m.id === id))`: one entry per selected
      id, in selection order; `None` (`undefined`, sent as `null`) for an id
      no longer listed. */
  function Resolve(ids: seq<string>, all: seq<Member>): (r: seq<Option<Member>>)
    ensures |r| == |ids|
    ensures forall i :: 0 <= i < |ids| ==>
              (r[i].None? <==> forall j :: 0 <= j < |all| ==> all[j].id != ids[i]) &&
              (r[i].Some? ==> r[i].value.id == ids[i] && r[i].value in all)
  {
    seq(|ids|, i requires 0 <= i < |ids| => Find(all, HasId(ids[i])))
  }

  datatype Payload = Payload(name: Option<string>, description: Option<string>, itemType: string, itemId: string,
                             seePermission: bool, accessPermission: bool, modifyPermission: bool, everyone: bool,
                             users: seq<Option<Member>>, roles: seq<Option<Member>>)

  /** `handleSubmit`: nothing is sent before an ACL has been loaded; the
      flags and texts are sent as they stand. */
  function Submit(p: Page): (r: Option<Payload>)
    ensures r.None? <==> p.acl.None?
    ensures r.Some? ==> r.value.seePermission == p.seePermission && r.value.accessPermission == p.accessPermission && r.value.modifyPermission == p.modifyPermission &&
                        r.value.everyone == p.everyone && r.value.itemType == p.itemType && r.value.itemId == p.itemId
    ensures r.Some? ==> r.value.name == p.name && r.value.description == p.description
    ensures r.Some? ==> r.value.users == Resolve(p.selectedUsers, p.allUsers) && r.value.roles == Resolve(p.selectedRoles, p.allRoles)
  {
    if p.acl.None? then None
    else Some(Payload(p.name, p.description, p.itemType, p.itemId, p.seePermission, p.accessPermission, p.modifyPermission, p.everyone,
                      Resolve(p.selectedUsers, p.allUsers), Resolve(p.selectedRoles, p.allRoles)))
  }

  predicate UniqueIds(all: seq<Member>) {
    forall i, j :: 0 <= i < j < |all| ==> all[i].id != all[j].id
  }

  /** With ids unique, resolving the id of a listed member gives that very
      member. */
  lemma ResolveListed(all: seq<Member>, m: Member)
    requires UniqueIds(all) && m in all
    ensures Find(all, HasId(m.id)) == Some(m)
  {
    var k :| 0 <= k < |all| && all[k] == m;
    var r := Find(all, HasId(m.id));
    assert r.Some?;
  }

  /** Selecting every user sends every listed user, in list order. */
  lemma SelectAllSendsEveryone(p: Page)
    requires p.acl.Some? && UniqueIds(p.allUsers)
    ensures var r := Submit(SelectAllUsers(p, true)).value;
            |r.users| == |p.allUsers| && forall i :: 0 <= i < |p.allUsers| ==> r.users[i] == Some(p.allUsers[i])
  {
    forall i | 0 <= i < |p.allUsers| ensures Find(p.allUsers, HasId(p.allUsers[i].id)) == Some(p.allUsers[i]) {
      ResolveListed(p.allUsers, p.allUsers[i]);
    }
  }

  /** Loading an ACL and saving it untouched sends back its own users and
      roles, provided every one of them is still listed. */
  lemma UntouchedSaveRoundTrip(p: Page, allUsers: seq<Member>, allRoles: seq<Member>, acl: Acl)
    requires UniqueIds(allUsers) && UniqueIds(allRoles)
    requires forall u :: u in acl.users ==> u in allUsers
    requires forall u :: u in acl.roles ==> u in allRoles
    ensures var r := Submit(Load(p, allUsers, allRoles, acl)).value;
            |r.users| == |acl.users| && (forall i :: 0 <= i < |acl.users| ==> r.users[i] == Some(acl.users[i])) &&
            |r.roles| == |acl.roles| && (forall i :: 0 <= i < |acl.roles| ==> r.roles[i] == Some(acl.roles[i]))
  {
    forall i | 0 <= i < |acl.users| ensures Find(allUsers, HasId(acl.users[i].id)) == Some(acl.users[i]) {
      ResolveListed(allUsers, acl.users[i]);
    }
    forall i | 0 <= i < |acl.roles| ensures Find(allRoles, HasId(acl.roles[i].id)) == Some(acl.roles[i]) {
      ResolveListed(allRoles, acl.roles[i]);
    }
  }

  /** Toggling an unselected user twice leaves the payload as it was. */
  lemma ToggleUserTwice(p: Page, userId: string)
    requires userId !in p.selectedUsers
    ensures Submit(ToggleUser(ToggleUser(p, userId), userId)) == Submit(p)
  {
    ToggleTwiceAbsent(p.selectedUsers, userId);
  }
}
