/** Which table a bootstrap file's records go to, read off the file name:
    the next-to-last `.`-separated part names the kind of record, in its
    singular or its plural spelling. */
module Classifier {
  import opened Wrappers
  import opened Text
  import opened Records

  /** `filename.rsplit('.').nth(1)`: the part before the last `.`, if any. */
  function ObjectTypeTag(filename: string): Option<string>
  {
    var parts := RSplit(filename, '.');
    if |parts| >= 2 then Some(parts[1]) else None
  }

  function Singular(t: Table): string
  {
    match t
    case Users => "user"
    case UserRoles => "user_role"
    case Teams => "team"
    case Projects => "project"
    case ConversionProfiles => "conversion_profile"
    case StorageLocations => "storage_location"
    case UploadProfiles => "upload_profile"
    case Roles => "role"
    case RolePermissions => "role_permission"
    case ApiKeys => "api_key"
  }

  function Plural(t: Table): string
  {
    Singular(t) + "s"
  }

  /** The closed dispatch table from tags to tables. */
  function Classify(tag: string): Option<Table>
  {
    if tag == "user" || tag == "users" then Some(Users)
    else if tag == "user_role" || tag == "user_roles" then Some(UserRoles)
    else if tag == "team" || tag == "teams" then Some(Teams)
    else if tag == "project" || tag == "projects" then Some(Projects)
    else if tag == "conversion_profile" || tag == "conversion_profiles" then Some(ConversionProfiles)
    else if tag == "storage_location" || tag == "storage_locations" then Some(StorageLocations)
    else if tag == "upload_profile" || tag == "upload_profiles" then Some(UploadProfiles)
    else if tag == "role" || tag == "roles" then Some(Roles)
    else if tag == "role_permission" || tag == "role_permissions" then Some(RolePermissions)
    else if tag == "api_key" || tag == "api_keys" then Some(ApiKeys)
    else None
  }

  /** A tag selects a table exactly when it is that table's singular or
      plural name, so every other tag selects nothing. */
  lemma ClassifyIff(tag: string, t: Table)
    ensures Classify(tag) == Some(t) <==> tag == Singular(t) || tag == Plural(t)
  {
    ClassifyNames(t);
    if Classify(tag) == Some(t) {
      ClassifySound(tag);
    }
  }

  /** Both spellings of a table's name select it. */
  lemma ClassifyNames(t: Table)
    ensures Classify(Singular(t)) == Some(t) && Classify(Plural(t)) == Some(t)
  {
    match t
    case Users => assert Plural(t) == "users";
    case UserRoles => assert Plural(t) == "user_roles";
    case Teams => assert Plural(t) == "teams";
    case Projects => assert Plural(t) == "projects";
    case ConversionProfiles => assert Plural(t) == "conversion_profiles";
    case StorageLocations => assert Plural(t) == "storage_locations";
    case UploadProfiles => assert Plural(t) == "upload_profiles";
    case Roles => assert Plural(t) == "roles";
    case RolePermissions => assert Plural(t) == "role_permissions";
    case ApiKeys => assert Plural(t) == "api_keys";
  }

  /** A tag that selects a table is one of that table's two spellings. */
  lemma ClassifySound(tag: string)
    requires Classify(tag).Some?
    ensures tag == Singular(Classify(tag).value) || tag == Plural(Classify(tag).value)
  {
    var t := Classify(tag).value;
    match t
    case Users => assert Plural(t) == "users";
    case UserRoles => assert Plural(t) == "user_roles";
    case Teams => assert Plural(t) == "teams";
    case Projects => assert Plural(t) == "projects";
    case ConversionProfiles => assert Plural(t) == "conversion_profiles";
    case StorageLocations => assert Plural(t) == "storage_locations";
    case UploadProfiles => assert Plural(t) == "upload_profiles";
    case Roles => assert Plural(t) == "roles";
    case RolePermissions => assert Plural(t) == "role_permissions";
    case ApiKeys => assert Plural(t) == "api_keys";
  }

  /** A file name has an object type exactly when it contains a `.`; the type
      is then the next-to-last of the parts that `split('.')` yields, and
      contains no `.` itself. */
  lemma ObjectTypeTagIsNextToLastPart(filename: string)
    ensures ObjectTypeTag(filename).Some? <==> '.' in filename
    ensures ObjectTypeTag(filename).Some? ==>
      var parts := Split(filename, '.');
      |parts| >= 2 && ObjectTypeTag(filename).value == parts[|parts| - 2] &&
      '.' !in ObjectTypeTag(filename).value
  {
    RSplitIsReversedSplit(filename, '.');
    SplitJoin(filename, '.');
    var parts := Split(filename, '.');
    if '.' in filename {
      ReverseAt(parts, 1);
    } else {
      CountAbsent(filename, '.');
    }
  }

  /** `<tag>.<ext>` and `<name>.<tag>.<ext>` have object type `tag`. */
  lemma ObjectTypeTagOf(name: string, tag: string, ext: string)
    requires '.' !in tag && '.' !in ext
    ensures ObjectTypeTag(tag + "." + ext) == Some(tag)
    ensures ObjectTypeTag(name + "." + tag + "." + ext) == Some(tag)
  {
    RSplitAt(tag, '.', ext);
    RSplitAt(name + "." + tag, '.', ext);
    RSplitAt(name, '.', tag);
  }
}
