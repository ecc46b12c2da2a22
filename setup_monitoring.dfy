/** The setup helper of the monitoring service (`foreup_bot/monitoring/setup_monitoring.py`):
    the configuration check, which looks for the required keys in a fixed order with
    Python's `in`, and the creation of the credentials file from its template. */
module SetupMonitoring {
  import opened Text

  /** A parsed JSON value. Numbers are kept as integers: no check here looks at them. */
  datatype Json =
    | JNull
    | JBool(b: bool)
    | JNumber(n: int)
    | JString(s: string)
    | JArray(items: seq<Json>)
    | JObject(fields: map<string, Json>)

  /** `key in value`, as Python evaluates it on what `json.load` returns: a key of an
      object, an element of a list, a substring of a string; `None` where the test
      raises `TypeError` (null, booleans, numbers). */
  function In(key: string, value: Json): (r: Option<bool>)
    ensures r.None? <==> value.JNull? || value.JBool? || value.JNumber?
    ensures value.JObject? ==> r == Some(key in value.fields)
  {
    match value
    case JObject(fields) => Some(key in fields)
    case JArray(items) => Some(JString(key) in items)
    case JString(s) => Some(Contains(s, key))
    case _ => None
  }

  /** `value[key]` for a key already known to be in the value: only an object gives the
      entry; a list or a string indexed by a string raises (`None`). */
  function Lookup(key: string, value: Json): Option<Json> {
    if value.JObject? && key in value.fields then Some(value.fields[key]) else None
  }

  /** The keys `validate_config` requires, in the order it looks for them. */
  const REQUIRED: seq<string> := ["target_date", "num_players", "start_time", "monitoring"]

  /** What `validate_config` concluded, by the message it prints. */
  datatype Validation = Valid | MissingField(field: string) | MissingEnabled | ConfigError

  /** The first of `fields` not in `config`; `ConfigError` when a test raises. */
  function FirstMissing(fields: seq<string>, config: Json): (v: Validation)
    ensures v.MissingField? ==> v.field in fields
    ensures v == Valid || v.MissingField? || v == ConfigError
    decreases |fields|
  {
    if fields == [] then Valid
    else match In(fields[0], config)
      case None => ConfigError
      case Some(false) => MissingField(fields[0])
      case Some(true) => FirstMissing(fields[1..], config)
  }

  /** Lines 49-70: `validate_config`, given the parsed file (`None` when it cannot be
      read or parsed). Only `Valid` makes it return `True`. */
  function ValidateConfig(file: Option<Json>): Validation {
    match file
    case None => ConfigError
    case Some(config) =>
      var missing := FirstMissing(REQUIRED, config);
      if missing != Valid then missing
      else match Lookup("monitoring", config)
        case None => ConfigError
        case Some(monitoring) =>
          match In("enabled", monitoring)
          case None => ConfigError
          case Some(false) => MissingEnabled
          case Some(true) => Valid
  }

  /** On an object, the first missing field is reported exactly when every field before
      it is present. */
  lemma {:induction false} FirstMissingOnObject(fields: seq<string>, m: map<string, Json>)
    ensures FirstMissing(fields, JObject(m)) == Valid <==> forall k | 0 <= k < |fields| :: fields[k] in m
    ensures FirstMissing(fields, JObject(m)) != ConfigError
    ensures forall i | 0 <= i < |fields| ::
      fields[i] !in m && (forall k | 0 <= k < i :: fields[k] in m) ==>
        FirstMissing(fields, JObject(m)) == MissingField(fields[i])
    decreases |fields|
  {
    if fields != [] {
      FirstMissingOnObject(fields[1..], m);
      forall i | 0 <= i < |fields| && fields[i] !in m && forall k | 0 <= k < i :: fields[k] in m
        ensures FirstMissing(fields, JObject(m)) == MissingField(fields[i])
      {
        if i > 0 {
          assert fields[0] in m;
          assert fields[1..][i - 1] == fields[i];
          forall k | 0 <= k < i - 1 ensures fields[1..][k] in m {
            assert fields[k + 1] in m;
          }
        }
      }
      if forall k | 0 <= k < |fields[1..]| :: fields[1..][k] in m {
        if fields[0] in m {
          forall k | 0 <= k < |fields| ensures fields[k] in m {
            if k > 0 {
              assert fields[k] == fields[1..][k - 1];
            }
          }
        }
      }
    }
  }

  /** A configuration object is accepted exactly when it has all four required keys and
      its `monitoring` entry has `enabled`; when a key is missing, the verdict names the
      first missing one in the order target_date, num_players, start_time, monitoring. */
  lemma ValidateObject(m: map<string, Json>)
    ensures ValidateConfig(Some(JObject(m))) == Valid <==>
      (forall k | 0 <= k < |REQUIRED| :: REQUIRED[k] in m)
      && "monitoring" in m && In("enabled", m["monitoring"]) == Some(true)
    ensures forall i | 0 <= i < |REQUIRED| ::
      REQUIRED[i] !in m && (forall k | 0 <= k < i :: REQUIRED[k] in m) ==>
        ValidateConfig(Some(JObject(m))) == MissingField(REQUIRED[i])
    ensures (forall k | 0 <= k < |REQUIRED| :: REQUIRED[k] in m) && m["monitoring"].JObject? ==>
      (ValidateConfig(Some(JObject(m))) == MissingEnabled <==> "enabled" !in m["monitoring"].fields)
  {
    FirstMissingOnObject(REQUIRED, m);
    if forall k | 0 <= k < |REQUIRED| :: REQUIRED[k] in m {
      assert REQUIRED[3] in m;
    }
  }

  /** Only a JSON object can pass: a list or a string that holds all four names fails
      when `config["monitoring"]` is read, and anything else fails the first `in`. */
  lemma OnlyObjectsValid(file: Option<Json>)
    ensures ValidateConfig(file) == Valid ==> file.Some? && file.value.JObject?
  {
  }

  /** The search looks only at whether each field is present. */
  lemma {:induction false} FirstMissingAgree(fields: seq<string>, m: map<string, Json>, m': map<string, Json>)
    requires forall f | f in fields :: (f in m <==> f in m')
    ensures FirstMissing(fields, JObject(m)) == FirstMissing(fields, JObject(m'))
    decreases |fields|
  {
    if fields != [] {
      assert fields[0] in fields;
      FirstMissingAgree(fields[1..], m, m');
    }
  }

  /** Keys other than the four required ones do not matter: adding `window_start_time`,
      `window_end_time` or anything else leaves the verdict as it was. */
  lemma ExtraKeysIgnored(m: map<string, Json>, key: string, value: Json)
    requires key !in REQUIRED
    ensures ValidateConfig(Some(JObject(m[key := value]))) == ValidateConfig(Some(JObject(m)))
  {
    FirstMissingAgree(REQUIRED, m, m[key := value]);
    assert "monitoring" in REQUIRED;
  }

  // ------------------------------------------------------------- credentials

  const TEMPLATE_PATH: string := "../config/credentials_template.json"
  const CREDENTIALS_PATH: string := "../config/credentials.json"

  /** What `create_credentials_file` returns, and the files it leaves. */
  datatype Setup = Setup(ok: bool, files: map<string, string>)

  /** Lines 14-31: `create_credentials_file`, over the files present (path to contents).
      An existing credentials file is kept; otherwise the template is copied to it; with
      neither, it fails and nothing changes. */
  function CreateCredentialsFile(files: map<string, string>): (r: Setup)
    ensures r.ok <==> CREDENTIALS_PATH in files || TEMPLATE_PATH in files
    ensures r.ok ==> CREDENTIALS_PATH in r.files
    ensures CREDENTIALS_PATH in files || !r.ok ==> r.files == files
    ensures CREDENTIALS_PATH !in files && r.ok ==>
      r.files[CREDENTIALS_PATH] == files[TEMPLATE_PATH]
      && forall p | p != CREDENTIALS_PATH :: (p in r.files <==> p in files) && (p in files ==> r.files[p] == files[p])
  {
    if CREDENTIALS_PATH in files then Setup(true, files)
    else if TEMPLATE_PATH in files then Setup(true, files[CREDENTIALS_PATH := files[TEMPLATE_PATH]])
    else Setup(false, files)
  }

  /** Running the setup again changes nothing and reports the same. */
  lemma CreateCredentialsIdempotent(files: map<string, string>)
    ensures var once := CreateCredentialsFile(files);
      CreateCredentialsFile(once.files) == Setup(once.ok, once.files)
  {
  }
}
