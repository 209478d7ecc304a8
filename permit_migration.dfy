/**
 * The migration script that configures the policy service: the `workspace`
 * resource with its four roles and their permission lists, and the
 * command-line parsing that picks up the policy service's address and key.
 */
module PermitMigration {
  import opened Wrappers

  /** The roles declared on the `workspace` resource. */
  datatype Role = Owner | Editor | Reviewer | Viewer

  /** The actions declared on the `workspace` resource. */
  datatype Action = Create | Read | Update | Delete | Review

  /** The key under which the policy service knows each role. */
  function RoleName(r: Role): (name: string)
    ensures name == "owner" <==> r == Owner
  {
    match r
    case Owner => "owner"
    case Editor => "editor"
    case Reviewer => "reviewer"
    case Viewer => "viewer"
  }

  /**
   * The permission list each role is created with. Read from the side of
   * the actions: everyone reads, only the owner deletes, creating needs
   * editor or owner, and updating and reviewing need more than viewer.
   */
  function RolePermissions(r: Role): (perms: seq<Action>)
    ensures Read in perms
    ensures Delete in perms <==> r == Owner
    ensures Create in perms <==> r == Owner || r == Editor
    ensures Update in perms <==> r != Viewer
    ensures Review in perms <==> r != Viewer
    ensures forall i, j | 0 <= i < j < |perms| :: perms[i] != perms[j]
  {
    match r
    case Owner => [Create, Read, Update, Delete, Review]
    case Editor => [Create, Read, Update, Review]
    case Reviewer => [Read, Update, Review]
    case Viewer => [Read]
  }

  /** A holder of role `r` on a workspace may perform `a` on it. */
  predicate Allowed(r: Role, a: Action)
  {
    a in RolePermissions(r)
  }

  /** The position of a role in the chain viewer < reviewer < editor < owner. */
  function Rank(r: Role): nat
  {
    match r
    case Viewer => 0
    case Reviewer => 1
    case Editor => 2
    case Owner => 3
  }

  lemma OwnerPermissions()
    ensures forall a :: Allowed(Owner, a)
  {
    forall a: Action ensures Allowed(Owner, a) {
      match a
      case Create =>
      case Read =>
      case Update =>
      case Delete =>
      case Review =>
    }
  }

  lemma EditorPermissions()
    ensures forall a :: Allowed(Editor, a) <==> a in {Create, Read, Update, Review}
  {
  }

  lemma ReviewerPermissions()
    ensures forall a :: Allowed(Reviewer, a) <==> a in {Read, Update, Review}
  {
  }

  lemma ViewerPermissions()
    ensures forall a :: Allowed(Viewer, a) <==> a == Read
  {
  }

  /** Every permission of a lower role is a permission of each higher role. */
  lemma PermissionsNested(lower: Role, higher: Role, a: Action)
    requires Rank(lower) <= Rank(higher)
    requires Allowed(lower, a)
    ensures Allowed(higher, a)
  {
  }

  lemma OnlyOwnerDeletes(r: Role)
    ensures Allowed(r, Delete) <==> r == Owner
  {
  }

  // ---------------------------------------------------------------------
  // Tenant-wide roles

  /** The tenant-wide roles the script creates, under the keys "admin" and "user". */
  datatype TenantRole = Admin | Member

  function TenantRoleName(t: TenantRole): (name: string)
    ensures name == "user" <==> t == Member
  {
    match t
    case Admin => "admin"
    case Member => "user"
  }

  /**
   * Both tenant-wide roles are created with every `workspace` action: the
   * same list as the owner role of a workspace.
   */
  function TenantPermissions(t: TenantRole): (perms: seq<Action>)
    ensures perms == RolePermissions(Owner)
  {
    [Create, Read, Update, Delete, Review]
  }

  /** A tenant-wide role carries every action. */
  lemma TenantRolesAllowEverything()
    ensures forall t, a :: a in TenantPermissions(t)
  {
    forall t, a ensures a in TenantPermissions(t) {
      assert Allowed(Owner, a) by {
        OwnerPermissions();
      }
    }
  }

  // ---------------------------------------------------------------------
  // Command-line arguments

  const PdpPrefix: string := "--permit_pdp="
  const ApiKeyPrefix: string := "--permit_api_key="

  /** `PERMIT_PDP` and `PERMIT_API_KEY`; `None` stands for JavaScript's null. */
  datatype Settings = Settings(pdp: Option<string>, apiKey: Option<string>)

  const Unset := Settings(None, None)

  /** The effect of one argument, as the body of the `forEach` callback. */
  function ApplyArgument(s: Settings, arg: string): Settings
  {
    if PdpPrefix <= arg then s.(pdp := Some(arg[|PdpPrefix|..]))
    else if ApiKeyPrefix <= arg then s.(apiKey := Some(arg[|ApiKeyPrefix|..]))
    else s
  }

  /** The settings after the arguments have been applied left to right. */
  function ParsedSettings(args: seq<string>): Settings
    decreases |args|
  {
    if args == [] then Unset
    else ApplyArgument(ParsedSettings(args[..|args| - 1]), args[|args| - 1])
  }

  /** The argument loop of the script. */
  method ParseArguments(args: seq<string>) returns (s: Settings)
    ensures s == ParsedSettings(args)
  {
    s := Unset;
    var i := 0;
    while i < |args|
      invariant 0 <= i <= |args|
      invariant s == ParsedSettings(args[..i])
    {
      var arg := args[i];
      if PdpPrefix <= arg {
        s := s.(pdp := Some(arg[|PdpPrefix|..]));
      } else if ApiKeyPrefix <= arg {
        s := s.(apiKey := Some(arg[|ApiKeyPrefix|..]));
      }
      assert args[..i + 1][..i] == args[..i];
      i := i + 1;
    }
    assert args[..|args|] == args;
  }

  /** No argument starts with both prefixes: they differ at position 9. */
  lemma PrefixesExclusive(arg: string)
    ensures !(PdpPrefix <= arg && ApiKeyPrefix <= arg)
  {
    assert PdpPrefix[9] != ApiKeyPrefix[9];
  }

  /**
   * Reference definition: the value carried by the last argument that
   * starts with `prefix`, independently of the other prefix.
   */
  ghost predicate IsLastWithPrefix(args: seq<string>, prefix: string, i: int)
  {
    && 0 <= i < |args|
    && prefix <= args[i]
    && forall j :: i < j < |args| ==> !(prefix <= args[j])
  }

  ghost function LastValue(args: seq<string>, prefix: string): (v: Option<string>)
    ensures v.None? <==> forall j :: 0 <= j < |args| ==> !(prefix <= args[j])
    decreases |args|
  {
    if args == [] then None
    else if prefix <= args[|args| - 1] then Some(args[|args| - 1][|prefix|..])
    else LastValue(args[..|args| - 1], prefix)
  }

  /** `LastValue` is the value of the last argument carrying the prefix. */
  lemma {:induction false} LastValueAt(args: seq<string>, prefix: string, i: int)
    requires IsLastWithPrefix(args, prefix, i)
    ensures LastValue(args, prefix) == Some(args[i][|prefix|..])
    decreases |args|
  {
    if i < |args| - 1 {
      var init := args[..|args| - 1];
      assert IsLastWithPrefix(init, prefix, i);
      LastValueAt(init, prefix, i);
    }
  }

  /** Later occurrences overwrite earlier ones; all other arguments are ignored. */
  lemma {:induction false} ParsedIsLastOccurrence(args: seq<string>)
    ensures ParsedSettings(args) == Settings(LastValue(args, PdpPrefix), LastValue(args, ApiKeyPrefix))
    decreases |args|
  {
    if args != [] {
      ParsedIsLastOccurrence(args[..|args| - 1]);
      PrefixesExclusive(args[|args| - 1]);
    }
  }

  /** A single PDP argument yields that value and leaves the key null. */
  lemma PdpRoundTrip(v: string)
    ensures ParsedSettings([PdpPrefix + v]) == Settings(Some(v), None)
  {
  }

  /** A single API-key argument yields that value and leaves the PDP null. */
  lemma ApiKeyRoundTrip(v: string)
    ensures ParsedSettings([ApiKeyPrefix + v]) == Settings(None, Some(v))
  {
    PrefixesExclusive(ApiKeyPrefix + v);
    assert [ApiKeyPrefix + v][..0] == [];
    assert ApiKeyPrefix <= ApiKeyPrefix + v;
  }

  const PdpMissing: string := "Error: --permit_pdp=value argument is missing!"
  const ApiKeyMissing: string := "Error: --permit_api_key=value argument is missing!"

  /** JavaScript falsiness of a parsed value: null or the empty string. */
  predicate Falsy(v: Option<string>)
  {
    v.None? || v.value == ""
  }

  /**
   * The error lines logged after parsing. Missing values only produce a
   * message: parsing never stops the script.
   */
  function MissingArgumentErrors(s: Settings): (errors: seq<string>)
    ensures PdpMissing in errors <==> s.pdp.None? || s.pdp == Some("")
    ensures ApiKeyMissing in errors <==> s.apiKey.None? || s.apiKey == Some("")
    ensures forall e | e in errors :: e == PdpMissing || e == ApiKeyMissing
    ensures |errors| <= 2
    ensures |errors| == 2 ==> errors == [PdpMissing, ApiKeyMissing]
  {
    (if Falsy(s.pdp) then [PdpMissing] else [])
    + (if Falsy(s.apiKey) then [ApiKeyMissing] else [])
  }
}
