/** The connection wrapper of the Informix backend (`DatabaseWrapper` in
    django_informixdb/base.py): its static translation tables, the rewrite of
    the lookup operators for a configured collation, and the translation of
    the connection settings into the keyword arguments of the driver's
    `connect`. */
module Base {
  import opened Wrappers
  import opened Text
  import Rows

  /** A scalar value of a settings dictionary: `None`, a `bool` or a `str`. */
  datatype Value = Null | Bool(b: bool) | Str(s: string)

  /** Python truthiness of a value. */
  predicate Truthy(v: Value) {
    match v
    case Null => false
    case Bool(b) => b
    case Str(s) => s != ""
  }

  /** `str(v)`, which both `'%s' % v` and `'{}'.format(v)` produce. */
  function Format(v: Value): string {
    match v
    case Null => "None"
    case Bool(b) => if b then "True" else "False"
    case Str(s) => s
  }

  /** The settings dictionary of a connection: its scalar entries, and the
      `OPTIONS` dictionary when that key is present and not `None`. */
  datatype SettingsDict = SettingsDict(entries: map<string, Value>, options: Option<map<string, Value>>)

  /** `d.get(key, default)`. */
  function Get(d: map<string, Value>, key: string, default: Value): (v: Value)
    ensures key in d ==> v == d[key]
    ensures key !in d ==> v == default
  {
    if key in d then d[key] else default
  }

  /** `DatabaseWrapper.data_types`: the column type of each model field kind. */
  const DataTypes: map<string, string> := map[
    "AutoField" := "serial",
    "BigAutoField" := "bigserial",
    "BinaryField" := "blob",
    "BooleanField" := "boolean",
    "CharField" := "lvarchar(%(max_length)s)",
    "CommaSeparatedIntegerField" := "lvarchar(%(max_length)s)",
    "DateField" := "date",
    "DateTimeField" := "datetime year to fraction(5)",
    "DecimalField" := "decimal",
    "DurationField" := "interval",
    "FileField" := "lvarchar(%(max_length)s)",
    "FilePathField" := "lvarchar(%(max_length)s)",
    "FloatField" := "smallfloat",
    "IntegerField" := "integer",
    "BigIntegerField" := "bigint",
    "IPAddressField" := "char(15)",
    "GenericIPAddressField" := "char(39)",
    "NullBooleanField" := "boolean",
    "OneToOneField" := "integer",
    "PositiveIntegerField" := "integer",
    "PositiveSmallIntegerField" := "smallint",
    "SlugField" := "lvarchar(%(max_length)s)",
    "SmallIntegerField" := "smallint",
    "TextField" := "text",
    "TimeField" := "datetime hour to second",
    "UUIDField" := "char(32)"
  ]

  /** `DatabaseWrapper.data_type_check_constraints`. */
  const DataTypeCheckConstraints: map<string, string> := map[
    "PositiveIntegerField" := "%(column)s >= 0",
    "PositiveSmallIntegerField" := "%(column)s >= 0"
  ]

  /** `DatabaseWrapper.operators`, the class-level table of lookup operators.
      Being a constant, no instance can change it. */
  const Operators: map<string, string> := map[
    "exact" := "= %s",
    "iexact" := "= LOWER(%s)",
    "contains" := "LIKE %s ESCAPE '\\'",
    "icontains" := "LIKE LOWER(%s) ESCAPE '\\'",
    "gt" := "> %s",
    "gte" := ">= %s",
    "lt" := "< %s",
    "lte" := "<= %s",
    "startswith" := "LIKE %s ESCAPE '\\'",
    "endswith" := "LIKE %s ESCAPE '\\'",
    "istartswith" := "LIKE LOWER(%s) ESCAPE '\\'",
    "iendswith" := "LIKE LOWER(%s) ESCAPE '\\'",
    "regex" := "LIKE %s",
    "iregex" := "LIKE %s"
  ]

  /** The lookups whose fragment in `Operators` is a `LIKE`. */
  const LikeLookups: set<string> :=
    {"contains", "icontains", "startswith", "endswith", "istartswith", "iendswith", "regex", "iregex"}

  /** The fragments the collation applies to. */
  predicate IsLike(sql: string) {
    StartsWith(sql, "LIKE ")
  }

  /** The suffix a collation adds to a `LIKE` fragment. */
  function CollateClause(collation: string): string {
    " COLLATE " + collation
  }

  /** The operator table an instance uses under a collation: every `LIKE`
      fragment followed by the `COLLATE` clause, every other one unchanged. */
  function Collate(table: map<string, string>, collation: string): (r: map<string, string>)
    ensures r.Keys == table.Keys
  {
    map op | op in table :: if IsLike(table[op]) then table[op] + CollateClause(collation) else table[op]
  }

  /** Takes the `COLLATE` clause off every `LIKE` fragment that ends with it.
      The backend never does this; it is the inverse `CollateReversible` uses. */
  function Uncollate(table: map<string, string>, collation: string): (r: map<string, string>)
    ensures r.Keys == table.Keys
  {
    var clause := CollateClause(collation);
    map op | op in table ::
      if IsLike(table[op]) && EndsWith(table[op], clause)
      then table[op][..|table[op]| - |clause|]
      else table[op]
  }

  /** The rewrite loses nothing: taking the clause off again gives the
      original table back, whatever the table and the collation. */
  lemma CollateReversible(table: map<string, string>, collation: string)
    ensures Uncollate(Collate(table, collation), collation) == table
  {
    var clause := CollateClause(collation);
    var c := Collate(table, collation);
    forall op | op in table
      ensures Uncollate(c, collation)[op] == table[op]
    {
      var sql := table[op];
      if IsLike(sql) {
        var t := sql + clause;
        assert c[op] == t;
        assert t[..5] == sql[..5];
        assert t[|t| - |clause|..] == clause;
        assert t[..|t| - |clause|] == sql;
      }
    }
  }

  /** In the backend's own table, the `LIKE` fragments are exactly those of
      the eight pattern lookups (the `regex` pair included); the six
      comparison lookups are not `LIKE`s. */
  lemma LikeLookupsOfOperators()
    ensures LikeLookups <= Operators.Keys
    ensures forall op :: op in Operators ==> (IsLike(Operators[op]) <==> op in LikeLookups)
  {
    forall op | op in Operators
      ensures IsLike(Operators[op]) <==> op in LikeLookups
    {
      var sql := Operators[op];
      if op in LikeLookups {
        assert sql[..5] == "LIKE ";
      } else {
        assert sql[0] != 'L';
      }
    }
  }

  /** A table whose `LIKE` fragments are those of the lookups `likes`
      changes, under collation `c`, in exactly those lookups. */
  lemma CollateSplits(table: map<string, string>, likes: set<string>, c: string)
    requires forall op :: op in table ==> (IsLike(table[op]) <==> op in likes)
    ensures forall op :: op in likes && op in table ==> Collate(table, c)[op] == table[op] + CollateClause(c)
    ensures forall op :: op in table && op !in likes ==> Collate(table, c)[op] == table[op]
  {
  }

  /** With collation `c`, the backend's table changes in exactly the eight
      pattern lookups, each of which gets ` COLLATE c` appended; the
      comparison lookups keep their fragment. */
  lemma OperatorsUnderCollation(c: string)
    ensures Collate(Operators, c).Keys == Operators.Keys
    ensures forall op :: op in LikeLookups ==> Collate(Operators, c)[op] == Operators[op] + CollateClause(c)
    ensures forall op :: op in Operators && op !in LikeLookups ==> Collate(Operators, c)[op] == Operators[op]
  {
    LikeLookupsOfOperators();
    CollateSplits(Operators, LikeLookups, c);
  }

  /** The loop of `__init__` that collects, for every `LIKE` fragment of
      `table`, the fragment with the collation clause appended. */
  method LikeOverrides(table: map<string, string>, collation: string) returns (ops: map<string, string>)
    ensures ops.Keys == set op | op in table && IsLike(table[op])
    ensures forall op :: op in ops ==> ops[op] == table[op] + CollateClause(collation)
  {
    ops := map[];
    var todo := table.Keys;
    while todo != {}
      invariant todo <= table.Keys
      invariant ops.Keys == set op | op in table && op !in todo && IsLike(table[op])
      invariant forall op :: op in ops ==> op in table && ops[op] == table[op] + CollateClause(collation)
      decreases |todo|
    {
      var op :| op in todo;
      var sql := table[op];
      if IsLike(sql) {
        ops := ops[op := sql + CollateClause(collation)];
      }
      todo := todo - {op};
    }
  }

  /** `self.settings_dict.get('OPTIONS')` is a non-empty dictionary. */
  predicate HasOptions(settings: SettingsDict) {
    settings.options.Some? && |settings.options.value| > 0
  }

  /** The keyword arguments of the driver's `connect`. */
  datatype ConnParams = ConnParams(user: Value, password: Value, dsn: string, autocommit: Value)

  /** `ImproperlyConfigured` from the validation, or the `KeyError` of a
      dictionary lookup that escapes. */
  datatype ConfigError = ImproperlyConfigured(message: string) | KeyError(key: string)

  /** The settings `get_connection_params` insists on, in the order it checks them. */
  const Required: seq<string> := ["name", "server", "user", "password"]

  /** Neither the lower-case nor the upper-case spelling of `k` is set. */
  predicate Missing(entries: map<string, Value>, k: string) {
    k !in entries && Upper(k) !in entries
  }

  /** One round of the validation loop. */
  function Require(entries: map<string, Value>, k: string): Result<(), ConfigError> {
    if Missing(entries, k) then Failure(ImproperlyConfigured(k + " is required for informix connection"))
    else Success(())
  }

  function RequireIn(entries: map<string, Value>): string -> Result<(), ConfigError> {
    k => Require(entries, k)
  }

  /** The keyword arguments, read from the upper-case keys in the order the
      dictionary display evaluates them; a missing key raises `KeyError`. */
  function BuildParams(entries: map<string, Value>): Result<ConnParams, ConfigError> {
    if "USER" !in entries then Failure(KeyError("USER"))
    else if "PASSWORD" !in entries then Failure(KeyError("PASSWORD"))
    else if "NAME" !in entries then Failure(KeyError("NAME"))
    else if "SERVER" !in entries then Failure(KeyError("SERVER"))
    else
      Success(ConnParams(entries["USER"], entries["PASSWORD"],
                         Format(entries["NAME"]) + "@" + Format(entries["SERVER"]),
                         Get(entries, "AUTOCOMMIT", Bool(false))))
  }

  /** What `get_connection_params` returns or raises for the given settings. */
  function ConnectionParams(entries: map<string, Value>): Result<ConnParams, ConfigError> {
    match Rows.Collect(Required, RequireIn(entries))
    case Failure(e) => Failure(e)
    case Success(_) => BuildParams(entries)
  }

  lemma UpperRequired()
    ensures Upper("name") == "NAME" && Upper("server") == "SERVER"
    ensures Upper("user") == "USER" && Upper("password") == "PASSWORD"
  {
    assert Upper("name") == "NAME";
    assert Upper("server") == "SERVER";
    assert Upper("user") == "USER";
    assert Upper("password") == "PASSWORD";
  }

  /** The call as written succeeds exactly when the four upper-case keys are
      set; the DSN is then `NAME@SERVER`, user and password are copied, and
      `autocommit` is `AUTOCOMMIT` when set and `False` otherwise. */
  lemma ConnectionParamsSucceeds(entries: map<string, Value>)
    ensures ConnectionParams(entries).Success? <==>
              "NAME" in entries && "SERVER" in entries && "USER" in entries && "PASSWORD" in entries
    ensures ConnectionParams(entries).Success? ==>
              var p := ConnectionParams(entries).value;
              && p.dsn == Format(entries["NAME"]) + "@" + Format(entries["SERVER"])
              && p.user == entries["USER"] && p.password == entries["PASSWORD"]
              && p.autocommit == (if "AUTOCOMMIT" in entries then entries["AUTOCOMMIT"] else Bool(false))
  {
    UpperRequired();
    Rows.CollectSuccess(Required, RequireIn(entries));
    if "NAME" in entries && "SERVER" in entries && "USER" in entries && "PASSWORD" in entries {
      assert forall i :: 0 <= i < |Required| ==> RequireIn(entries)(Required[i]).Success?;
    }
  }

  /** A setting given only in lower case passes the validation, and the
      upper-case read that follows raises `KeyError` instead. Django fills in
      `NAME`, `USER` and `PASSWORD` (default `''`) but not `SERVER`, so a
      lower-case `server` is the spelling that reaches this path. */
  lemma LowerCaseServerPassesValidationThenFails()
    ensures var entries := map["NAME" := Str("db"), "server" := Str("srv"),
                               "USER" := Str(""), "PASSWORD" := Str("")];
            && (forall i :: 0 <= i < |Required| ==> !Missing(entries, Required[i]))
            && ConnectionParams(entries) == Failure(KeyError("SERVER"))
  {
    UpperRequired();
    var entries := map["NAME" := Str("db"), "server" := Str("srv"),
                       "USER" := Str(""), "PASSWORD" := Str("")];
    assert forall i :: 0 <= i < |Required| ==> RequireIn(entries)(Required[i]).Success?;
    Rows.CollectSuccess(Required, RequireIn(entries));
  }

  /** The value of required setting `k`, from the upper-case key when present
      and from the lower-case one otherwise. */
  function Setting(entries: map<string, Value>, k: string): Value
    requires !Missing(entries, k)
  {
    if Upper(k) in entries then entries[Upper(k)] else entries[k]
  }

  /** Every required setting is present under one of its spellings. */
  predicate AllPresent(entries: map<string, Value>) {
    && !Missing(entries, "name") && !Missing(entries, "server")
    && !Missing(entries, "user") && !Missing(entries, "password")
  }

  /** `get_connection_params` reading each setting under the spelling the
      validation accepted: after the validation nothing can fail, and the
      only error left is `ImproperlyConfigured`. */
  function ConnectionParamsIntended(entries: map<string, Value>): (r: Result<ConnParams, ConfigError>)
    ensures r.Success? <==> AllPresent(entries)
    ensures r.Failure? ==> r.error.ImproperlyConfigured?
  {
    Rows.CollectSuccess(Required, RequireIn(entries));
    Rows.CollectFailure(Required, RequireIn(entries));
    match Rows.Collect(Required, RequireIn(entries))
    case Failure(e) =>
      assert e.ImproperlyConfigured?;
      Failure(e)
    case Success(_) =>
      assert !Missing(entries, Required[0]) && !Missing(entries, Required[1]);
      assert !Missing(entries, Required[2]) && !Missing(entries, Required[3]);
      Success(ConnParams(Setting(entries, "user"), Setting(entries, "password"),
                         Format(Setting(entries, "name")) + "@" + Format(Setting(entries, "server")),
                         Get(entries, "AUTOCOMMIT", Bool(false))))
  }

  /** The validation reports the first required setting, in the order
      name, server, user, password, that is set under neither spelling; the
      code as written and the intended reading agree on this. */
  lemma ReportsFirstMissing(entries: map<string, Value>, i: nat)
    requires i < |Required| && Missing(entries, Required[i])
    requires forall j :: 0 <= j < i ==> !Missing(entries, Required[j])
    ensures ConnectionParams(entries) == Failure(ImproperlyConfigured(Required[i] + " is required for informix connection"))
    ensures ConnectionParamsIntended(entries) == ConnectionParams(entries)
  {
    Rows.CollectFirstFailure(Required, RequireIn(entries), i);
  }

  /** With every setting present, the DSN splits back into the database name
      and the server, whichever spelling each was given under, when neither
      contains `@`. */
  lemma DsnRoundTrip(entries: map<string, Value>)
    requires AllPresent(entries)
    requires '@' !in Format(Setting(entries, "name")) && '@' !in Format(Setting(entries, "server"))
    ensures ConnectionParamsIntended(entries).Success?
    ensures Split(ConnectionParamsIntended(entries).value.dsn, '@') ==
              [Format(Setting(entries, "name")), Format(Setting(entries, "server"))]
  {
    var parts := [Format(Setting(entries, "name")), Format(Setting(entries, "server"))];
    Rows.CollectSuccess(Required, RequireIn(entries));
    assert forall j :: 0 <= j < |Required| ==> !Missing(entries, Required[j]);
    assert Join(parts, '@') == ConnectionParamsIntended(entries).value.dsn;
    SplitJoin(parts, '@');
  }

  /** Where the upper-case keys are set, the intended reading agrees with
      the code as written. */
  lemma IntendedAgreesOnUpperCase(entries: map<string, Value>)
    requires "NAME" in entries && "SERVER" in entries && "USER" in entries && "PASSWORD" in entries
    ensures ConnectionParamsIntended(entries) == ConnectionParams(entries)
  {
    UpperRequired();
    ConnectionParamsSucceeds(entries);
  }

  /** The connection wrapper: its settings and the per-instance attributes
      `__init__` sets. */
  class DatabaseWrapper {
    var settingsDict: SettingsDict
    /** `self.operators`: the class table, or its collated copy. */
    var operators: map<string, string>
    /** `self.encoding`; `None` when `__init__` does not set it. */
    var encoding: Option<Value>
    /** `self.collation`; `None` when `__init__` does not set it. */
    var collation: Option<Value>

    /** `__init__`: with a non-empty `OPTIONS`, sets the encoding (default
        `'utf-8'`) and the collation (default `None`); a truthy collation
        gives the instance a copy of the operator table whose `LIKE`
        fragments carry the `COLLATE` clause. */
    constructor (settings: SettingsDict)
      ensures settingsDict == settings
      ensures HasOptions(settings) ==>
                && encoding == Some(Get(settings.options.value, "encoding", Str("utf-8")))
                && collation == Some(Get(settings.options.value, "collation", Null))
      ensures !HasOptions(settings) ==> encoding == None && collation == None
      ensures if collation.Some? && Truthy(collation.value)
              then operators == Collate(Operators, Format(collation.value))
              else operators == Operators
    {
      settingsDict := settings;
      operators := Operators;
      encoding := None;
      collation := None;
      if HasOptions(settings) {
        var options := settings.options.value;
        encoding := Some(Get(options, "encoding", Str("utf-8")));
        var c := Get(options, "collation", Null);
        collation := Some(c);
        if Truthy(c) {
          var copy := Operators;
          var ops := LikeOverrides(copy, Format(c));
          assert copy + ops == Collate(Operators, Format(c));
          operators := copy + ops;
        }
      }
    }

    /** `get_connection_params`: the validation loop raises for the first
        required setting missing under both spellings; then the keyword
        arguments are built, each setting read under the spelling that is
        present. */
    method GetConnectionParams() returns (r: Result<ConnParams, ConfigError>)
      ensures r == ConnectionParamsIntended(settingsDict.entries)
    {
      var entries := settingsDict.entries;
      var i := 0;
      while i < |Required|
        invariant 0 <= i <= |Required|
        invariant forall j :: 0 <= j < i ==> !Missing(entries, Required[j])
      {
        var k := Required[i];
        if k !in entries && Upper(k) !in entries {
          ReportsFirstMissing(entries, i);
          return Failure(ImproperlyConfigured(k + " is required for informix connection"));
        }
        i := i + 1;
      }
      assert forall j :: 0 <= j < |Required| ==> RequireIn(entries)(Required[j]).Success?;
      Rows.CollectSuccess(Required, RequireIn(entries));
      UpperRequired();
      assert !Missing(entries, Required[0]) && !Missing(entries, Required[1]);
      assert !Missing(entries, Required[2]) && !Missing(entries, Required[3]);
      var user := if "USER" in entries then entries["USER"] else entries["user"];
      var password := if "PASSWORD" in entries then entries["PASSWORD"] else entries["password"];
      var name := if "NAME" in entries then entries["NAME"] else entries["name"];
      var server := if "SERVER" in entries then entries["SERVER"] else entries["server"];
      var autocommit := if "AUTOCOMMIT" !in entries then Bool(false) else entries["AUTOCOMMIT"];
      r := Success(ConnParams(user, password, Format(name) + "@" + Format(server), autocommit));
    }
  }
}
