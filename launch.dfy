/** The pure parts of the launcher's `run_client` (src/app/gui.rs): the
    launching parameter built from the page's account object with fixed
    fallbacks, and the lookup of the requested build in the catalog's list. */
module Launch {
  import opened Base
  import Cloud

  /** A value handed over by the page script (sciter's `Value`). */
  datatype ScriptValue =
    | Undefined
    | Null
    | Bool(b: bool)
    | Int(i: int)
    | Str(s: string)
    | Array(items: seq<ScriptValue>)
    | Map(entries: map<string, ScriptValue>)

  /** `Value::get_item(key)`: the entry of a map, undefined otherwise. */
  function GetItem(v: ScriptValue, key: string): (r: ScriptValue)
    ensures r != Undefined ==> v.Map? && key in v.entries && r == v.entries[key]
    ensures v.Map? && key in v.entries ==> r == v.entries[key]
  {
    match v
    case Map(entries) => if key in entries then entries[key] else Undefined
    case _ => Undefined
  }

  /** `Value::as_string()`: only a string value reads as a string. */
  function AsString(v: ScriptValue): (r: Option<string>)
    ensures r.Some? <==> v.Str?
    ensures r.Some? ==> r.value == v.s
  {
    match v
    case Str(s) => Some(s)
    case _ => None
  }

  /** The account entry `key`, when it is present and a string. */
  function StringItem(account: ScriptValue, key: string): Option<string> {
    AsString(GetItem(account, key))
  }

  /** Who the game is started as. */
  datatype LaunchingParameter = LaunchingParameter(
    authPlayerName: string,
    authUuid: string,
    authAccessToken: string,
    authXuid: string,
    clientid: string,
    userType: string)

  const DEFAULT_PLAYER_NAME: string := "unexpected"
  const DEFAULT_UUID: string := "069a79f4-44e9-4726-a5be-fca90e38aaf5"
  const DEFAULT_ACCESS_TOKEN: string := "-"
  const DEFAULT_USER_TYPE: string := "legacy"
  const FIXED_XUID: string := "x"
  const FIXED_CLIENT_ID: string := "x"

  /** The parameter `run_client` builds from the page's account object: each
      of "username", "id", "accessToken" and "type" is taken when it is a
      string and replaced by a fixed fallback otherwise; the Xbox user id and
      the client id are always "x". It never fails. */
  function MakeLaunchingParameter(account: ScriptValue): (p: LaunchingParameter)
    ensures GetItem(account, "username").Str? ==> p.authPlayerName == GetItem(account, "username").s
    ensures !GetItem(account, "username").Str? ==> p.authPlayerName == "unexpected"
    ensures GetItem(account, "id").Str? ==> p.authUuid == GetItem(account, "id").s
    ensures !GetItem(account, "id").Str? ==> p.authUuid == "069a79f4-44e9-4726-a5be-fca90e38aaf5"
    ensures GetItem(account, "accessToken").Str? ==> p.authAccessToken == GetItem(account, "accessToken").s
    ensures !GetItem(account, "accessToken").Str? ==> p.authAccessToken == "-"
    ensures GetItem(account, "type").Str? ==> p.userType == GetItem(account, "type").s
    ensures !GetItem(account, "type").Str? ==> p.userType == "legacy"
    ensures p.authXuid == "x" && p.clientid == "x"
  {
    LaunchingParameter(
      StringItem(account, "username").GetOr(DEFAULT_PLAYER_NAME),
      StringItem(account, "id").GetOr(DEFAULT_UUID),
      StringItem(account, "accessToken").GetOr(DEFAULT_ACCESS_TOKEN),
      FIXED_XUID,
      FIXED_CLIENT_ID,
      StringItem(account, "type").GetOr(DEFAULT_USER_TYPE))
  }

  /** An account object that is not a map at all yields only fallbacks. */
  lemma NonMapAccountUsesFallbacks(account: ScriptValue)
    requires !account.Map?
    ensures MakeLaunchingParameter(account) == LaunchingParameter(
      "unexpected", "069a79f4-44e9-4726-a5be-fca90e38aaf5", "-", "x", "x", "legacy")
  {
  }

  /** An account entry is used when it is present and a string; with the
      entry removed, its field holds the fallback. */
  lemma AccountEntriesAreUsed(entries: map<string, ScriptValue>, key: string)
    requires key in {"username", "id", "accessToken", "type"}
    ensures var p := MakeLaunchingParameter(Map(entries));
      && ("username" in entries && entries["username"].Str? ==> p.authPlayerName == entries["username"].s)
      && ("id" in entries && entries["id"].Str? ==> p.authUuid == entries["id"].s)
      && ("accessToken" in entries && entries["accessToken"].Str? ==> p.authAccessToken == entries["accessToken"].s)
      && ("type" in entries && entries["type"].Str? ==> p.userType == entries["type"].s)
    ensures var p := MakeLaunchingParameter(Map(entries - {key}));
      && (key == "username" ==> p.authPlayerName == "unexpected")
      && (key == "id" ==> p.authUuid == "069a79f4-44e9-4726-a5be-fca90e38aaf5")
      && (key == "accessToken" ==> p.authAccessToken == "-")
      && (key == "type" ==> p.userType == "legacy")
  {
    assert GetItem(Map(entries - {key}), key) == Undefined;
  }

  /** The parameter depends on the account only through the four string
      entries it reads. */
  lemma ParameterOfStringItems(a: ScriptValue, b: ScriptValue)
    requires StringItem(a, "username") == StringItem(b, "username")
    requires StringItem(a, "id") == StringItem(b, "id")
    requires StringItem(a, "accessToken") == StringItem(b, "accessToken")
    requires StringItem(a, "type") == StringItem(b, "type")
    ensures MakeLaunchingParameter(a) == MakeLaunchingParameter(b)
  {
  }

  /** An entry that is not a string falls back exactly like a missing one. */
  lemma NonStringEntryFallsBack(entries: map<string, ScriptValue>, key: string, other: ScriptValue)
    requires !other.Str?
    ensures MakeLaunchingParameter(Map(entries[key := other])) == MakeLaunchingParameter(Map(entries - {key}))
  {
    var updated := Map(entries[key := other]);
    var removed := Map(entries - {key});
    forall k | k in {"username", "id", "accessToken", "type"}
      ensures StringItem(updated, k) == StringItem(removed, k)
    {
      if k != key {
        assert GetItem(updated, k) == GetItem(removed, k);
      }
    }
    ParameterOfStringItems(updated, removed);
  }

  /** Each account entry decides its own field only, whatever it holds. */
  lemma EntryDecidesOwnField(entries: map<string, ScriptValue>, key: string, other: ScriptValue)
    ensures var p := MakeLaunchingParameter(Map(entries[key := other]));
      var q := MakeLaunchingParameter(Map(entries));
      && (key != "username" ==> p.authPlayerName == q.authPlayerName)
      && (key != "id" ==> p.authUuid == q.authUuid)
      && (key != "accessToken" ==> p.authAccessToken == q.authAccessToken)
      && (key != "type" ==> p.userType == q.userType)
  {
    var updated := Map(entries[key := other]);
    forall k | k in {"username", "id", "accessToken", "type"} && k != key
      ensures GetItem(updated, k) == GetItem(Map(entries), k)
    {
    }
  }

  /** Rust's `build_id as u32` on an `i32`: the same bits read as unsigned,
      so negative ids wrap around. */
  function AsU32(id: i32): (r: u32)
    ensures (r - id) % 0x1_0000_0000 == 0
  {
    if id >= 0 then id else id + 0x1_0000_0000
  }

  /** The cast loses nothing: distinct ids select distinct builds. */
  lemma AsU32Injective(a: i32, b: i32)
    requires AsU32(a) == AsU32(b)
    ensures a == b
  {
  }

  /** The index of the first build whose id is `key`, the position at which
      the task's `find` stops. */
  function FirstWithId(builds: seq<Cloud.Build>, key: u32): (r: Option<nat>)
    ensures r.Some? ==> r.value < |builds| && builds[r.value].buildId == key
    ensures r.Some? ==> forall j :: 0 <= j < r.value ==> builds[j].buildId != key
    ensures r.None? ==> forall j :: 0 <= j < |builds| ==> builds[j].buildId != key
  {
    if builds == [] then None
    else if builds[0].buildId == key then Some(0)
    else
      match FirstWithId(builds[1..], key)
      case None => None
      case Some(i) => Some(i + 1)
  }

  /** The task's `builds.iter().find(|x| x.build_id == build_id as u32)`. */
  function FindBuild(builds: seq<Cloud.Build>, buildId: i32): (r: Option<Cloud.Build>)
    ensures r.Some? <==> exists j :: 0 <= j < |builds| && builds[j].buildId == AsU32(buildId)
    ensures r.Some? ==> r.value.buildId == AsU32(buildId)
    ensures r.Some? ==> exists i :: (0 <= i < |builds| && builds[i] == r.value &&
      forall j :: 0 <= j < i ==> builds[j].buildId != AsU32(buildId))
  {
    match FirstWithId(builds, AsU32(buildId))
    case None => None
    case Some(i) => Some(builds[i])
  }

  /** The page's id -1 asks for build 4294967295. */
  lemma NegativeIdWraps(builds: seq<Cloud.Build>)
    ensures FindBuild(builds, -1).Some? <==> exists j :: 0 <= j < |builds| && builds[j].buildId == 0xFFFF_FFFF
  {
  }
}
