/** src/common/tlm-config.c: the store of configuration values. */
module ConfigStore {
  import opened Wrappers
  import opened Decimal

  type Group = map<string, Option<string>>
  type Table = map<string, Group>

  const GENERAL := "General"

  predicate Named(s: Option<string>) {
    s.Some? && s.value != ""
  }

  function GetGroup(table: Table, group: Option<string>): Option<Group> {
    if Named(group) && group.value in table then Some(table[group.value]) else None
  }

  function GetString(table: Table, group: Option<string>, key: Option<string>): Option<string> {
    if !Named(key) then None
    else match GetGroup(table, group)
         case None => None
         case Some(g) => if key.value in g then g[key.value] else None
  }

  /** The default counts only when the group exists. */
  function GetStringDefault(table: Table, group: Option<string>, key: Option<string>, value: Option<string>)
    : Option<string>
  {
    if !Named(key) || GetGroup(table, group).None? then None
    else if GetString(table, group, key).None? then value
    else GetString(table, group, key)
  }

  predicate HasKey(table: Table, group: Option<string>, key: Option<string>) {
    var g := if group.None? then Some(GENERAL) else group;
    key.Some? && GetGroup(table, g).Some? && key.value in GetGroup(table, g).value
  }

  function GetInt(table: Table, group: Option<string>, key: Option<string>, retval: int): int {
    var s := GetString(table, group, key);
    if s.Some? then Atoi(s.value) else retval
  }

  function GetUint(table: Table, group: Option<string>, key: Option<string>, retval: nat): int {
    var s := GetString(table, group, key);
    if s.None? || (s.value != "" && s.value[0] == '-') then retval
    else match Scan(s.value)
         case None => retval
         case Some(n) => n
  }

  function GetBoolean(table: Table, group: Option<string>, key: Option<string>, retval: int): int {
    var s := GetString(table, group, key);
    if s.None? then retval
    else if StartsWith(s.value, "false") || StartsWith(s.value, "no") then 0
    else if StartsWith(s.value, "true") || StartsWith(s.value, "yes") then 1
    else match Scan(s.value)
         case None => retval
         case Some(n) => n
  }

  function Lower(c: char): char {
    if 'A' <= c <= 'Z' then c - 'A' + 'a' else c
  }

  /** g_ascii_strncasecmp with the length of the word. */
  predicate StartsWith(s: string, word: string) {
    |word| <= |s| && forall i :: 0 <= i < |word| ==> Lower(s[i]) == Lower(word[i])
  }

  /** sscanf("%d"): a number, if there is at least one digit. */
  function Scan(s: string): Option<int> {
    var t := SkipSpaces(s);
    var digits := if t != "" && t[0] in {'-', '+'} then t[1..] else t;
    if digits == "" || !IsDigit(digits[0]) then None else Some(Atoi(s))
  }

  class TlmConfig {
    var configTable: Table

    constructor ()
      ensures configTable == map[]
    {
      configTable := map[];
    }

    method SetString(group: Option<string>, key: Option<string>, value: Option<string>)
      modifies this
      ensures configTable == Stored(old(configTable), group, key, value)
    {
      if !Named(key) {
        return;
      }
      var name := if group.None? then GENERAL else group.value;
      var found := GetGroup(configTable, Some(name));
      var groupTable: Group := map[];
      if found.Some? {
        groupTable := found.value;
      }
      configTable := configTable[name := groupTable[key.value := value]];
    }

    method SetInt(group: Option<string>, key: Option<string>, value: int)
      modifies this
      ensures configTable == Stored(old(configTable), group, key, Some(Print(value)))
    {
      SetString(group, key, Some(Print(value)));
    }
  }

  /** The table after one value has been set: the group without a name starts empty each time. */
  function Stored(table: Table, group: Option<string>, key: Option<string>, value: Option<string>): Table {
    if !Named(key) then table
    else
      var name := if group.None? then GENERAL else group.value;
      var before: Group := if name != "" && name in table then table[name] else map[];
      table[name := before[key.value := value]]
  }

  // ----- What is set is got -----

  /** A set changes what is got for its own group and key, and for nothing else. */
  lemma SetChangesOne(table: Table, group: Option<string>, key: Option<string>, value: Option<string>,
                      g: Option<string>, k: Option<string>)
    ensures var name := if group.None? then Some(GENERAL) else group;
            GetString(Stored(table, group, key, value), g, k) ==
            if Named(name) && Named(key) && g == name && k == key then value else GetString(table, g, k)
  {
  }

  /** Getting with the arguments of the set returns the value if and only if group and key have names. */
  lemma GotBackIff(table: Table, group: Option<string>, key: Option<string>, value: string)
    ensures GetString(Stored(table, group, key, Some(value)), group, key) == Some(value) <==>
            (Named(group) && Named(key)) || GetString(table, group, key) == Some(value)
  {
  }

  /** After a set, a key is there if it was, or was set: to this question a null group means General, as it does to the set. */
  lemma HasKeyIff(table: Table, group: Option<string>, key: Option<string>, value: Option<string>,
                  g: Option<string>, k: Option<string>)
    ensures var name, asked := if group.None? then GENERAL else group.value, if g.None? then GENERAL else g.value;
            HasKey(Stored(table, group, key, value), g, k) <==>
            HasKey(table, g, k) || (name != "" && Named(key) && asked == name && k == key)
  {
  }

  /** So with a null group what has been set is there, but only getting it from General by name gives it back. */
  lemma SetIntoGeneral(key: Option<string>, value: string)
    requires Named(key)
    ensures var t := Stored(map[], None, key, Some(value));
            && HasKey(t, None, key) && GetString(t, None, key) == None && GetString(t, Some(GENERAL), key) == Some(value)
  {
    HasKeyIff(map[], None, key, Some(value), None, key);
    SetChangesOne(map[], None, key, Some(value), Some(GENERAL), key);
  }

  lemma DefaultIff(table: Table, group: Option<string>, key: Option<string>, value: string)
    requires GetString(table, group, key).None?
    ensures GetStringDefault(table, group, key, Some(value)) == Some(value) <==>
            Named(key) && GetGroup(table, group).Some?
  {
  }

  lemma PrintedStart(n: int)
    ensures Print(n) != "" && (if n < 0 then Print(n)[0] == '-' else IsDigit(Print(n)[0]))
    ensures Scan(Print(n)) == Some(n)
    ensures !StartsWith(Print(n), "false") && !StartsWith(Print(n), "no")
    ensures !StartsWith(Print(n), "true") && !StartsWith(Print(n), "yes")
  {
    AtoiPrint(n);
    var s := Print(n);
    if n < 0 {
      assert s[1..] == PrintNat(-n);
    }
    assert Lower(s[0]) == s[0];
    assert Lower("false"[0]) == 'f' && Lower("no"[0]) == 'n' && Lower("true"[0]) == 't' && Lower("yes"[0]) == 'y';
  }

  /** Numbers and truth values survive being printed and parsed. */
  lemma NumbersGotBack(table: Table, group: Option<string>, key: Option<string>, value: int, retval: int)
    requires Named(group) && Named(key)
    ensures var t := Stored(table, group, key, Some(Print(value)));
            && GetInt(t, group, key, retval) == value
            && GetBoolean(t, group, key, retval) == value
            && (value >= 0 && retval >= 0 ==> GetUint(t, group, key, retval) == value)
  {
    SetChangesOne(table, group, key, Some(Print(value)), group, key);
    PrintedStart(value);
    AtoiPrint(value);
  }

  // ----- Every history of sets -----

  datatype Setting = Setting(group: Option<string>, key: Option<string>, value: Option<string>)

  /** The value set last for a group and a key that have names. */
  function LastSet(sets: seq<Setting>, group: string, key: string): Option<string> {
    if sets == [] then None
    else
      var last := sets[|sets| - 1];
      var name := if last.group.None? then GENERAL else last.group.value;
      if name == group && last.key == Some(key) then last.value else LastSet(sets[..|sets| - 1], group, key)
  }

  method Replay(sets: seq<Setting>) returns (table: Table)
    ensures forall g, k :: g != "" && k != "" ==> GetString(table, Some(g), Some(k)) == LastSet(sets, g, k)
  {
    var config := new TlmConfig();
    var i := 0;
    while i < |sets|
      invariant 0 <= i <= |sets|
      invariant forall g, k :: g != "" && k != "" ==>
                  GetString(config.configTable, Some(g), Some(k)) == LastSet(sets[..i], g, k)
    {
      ghost var before := config.configTable;
      config.SetString(sets[i].group, sets[i].key, sets[i].value);
      assert sets[..i + 1][..i] == sets[..i];
      forall g, k | g != "" && k != ""
        ensures GetString(config.configTable, Some(g), Some(k)) == LastSet(sets[..i + 1], g, k) {
        SetChangesOne(before, sets[i].group, sets[i].key, sets[i].value, Some(g), Some(k));
      }
      i := i + 1;
    }
    assert sets[..|sets|] == sets;
    table := config.configTable;
  }

  // ----- What a stored text means to each getter -----

  /** The text begins with a word in letters of any size. */
  ghost predicate Begins(s: string, word: string) {
    |word| <= |s| && forall i :: 0 <= i < |word| ==> SameLetter(s[i], word[i])
  }

  predicate SameLetter(c: char, small: char) {
    c == small || ('a' <= small <= 'z' && c == small - 'a' + 'A')
  }

  ghost predicate NoDigit(s: string) {
    forall i :: 0 <= i < |s| ==> !('0' <= s[i] <= '9')
  }

  /** "true" and "yes" are true, "false" and "no" are false; no number and no such word is no answer. */
  lemma BooleanMeans(table: Table, group: Option<string>, key: Option<string>, s: string, retval: int)
    requires GetString(table, group, key) == Some(s)
    ensures var b := GetBoolean(table, group, key, retval);
            && (Begins(s, "true") || Begins(s, "yes") ==> b == 1)
            && (Begins(s, "false") || Begins(s, "no") ==> b == 0)
            && (NoDigit(s) && !Begins(s, "true") && !Begins(s, "yes") && !Begins(s, "false") && !Begins(s, "no") ==>
                  b == retval)
  {
    hide Scan, GetString;
    BeginsIff(s, "true");
    BeginsIff(s, "yes");
    BeginsIff(s, "false");
    BeginsIff(s, "no");
    hide StartsWith;
    OneWord(s);
    if NoDigit(s) {
      NoNumber(s);
    }
  }

  lemma BeginsIff(s: string, word: string)
    requires forall i :: 0 <= i < |word| ==> 'a' <= word[i] <= 'z'
    ensures StartsWith(s, word) <==> Begins(s, word)
  {
    forall c: char, small: char | 'a' <= small <= 'z' ensures Lower(c) == Lower(small) <==> SameLetter(c, small) {
    }
  }

  /** The first letter tells the words apart. */
  lemma OneWord(s: string)
    ensures Begins(s, "true") || Begins(s, "yes") ==> !Begins(s, "false") && !Begins(s, "no")
  {
    if Begins(s, "true") {
      assert SameLetter(s[0], "true"[0]);
    } else if Begins(s, "yes") {
      assert SameLetter(s[0], "yes"[0]);
    }
    if Begins(s, "false") {
      assert SameLetter(s[0], "false"[0]);
    } else if Begins(s, "no") {
      assert SameLetter(s[0], "no"[0]);
    }
  }

  lemma NoNumber(s: string)
    requires NoDigit(s)
    ensures Scan(s).None? && Atoi(s) == 0
  {
    SkippedNoDigit(s);
  }

  lemma {:induction false} SkippedNoDigit(s: string)
    requires NoDigit(s)
    ensures NoDigit(SkipSpaces(s))
  {
    if s != [] && IsSpace(s[0]) {
      SkippedNoDigit(s[1..]);
    }
  }

  /** What the number getters make of text without digits, of a minus sign, and of a missing value. */
  lemma NumbersMean(table: Table, group: Option<string>, key: Option<string>, retval: nat)
    ensures match GetString(table, group, key)
            case None =>
              && GetInt(table, group, key, retval) == retval && GetUint(table, group, key, retval) == retval
              && GetBoolean(table, group, key, retval) == retval
            case Some(s) =>
              && (NoDigit(s) ==> GetInt(table, group, key, retval) == 0 && GetUint(table, group, key, retval) == retval)
              && (s != "" && s[0] == '-' ==> GetUint(table, group, key, retval) == retval)
  {
    hide GetString;
    var found := GetString(table, group, key);
    if found.Some? && NoDigit(found.value) {
      NoNumber(found.value);
    }
  }

  /** A value that is there is what the getter with a default returns. */
  lemma DefaultUnused(table: Table, group: Option<string>, key: Option<string>, value: Option<string>)
    requires GetString(table, group, key).Some?
    ensures GetStringDefault(table, group, key, value) == GetString(table, group, key)
  {
  }

  /** Keys and groups without a name: nothing is stored under such a key, and nothing is got from such a group. */
  lemma NamelessNothing(table: Table, group: Option<string>, key: Option<string>, value: Option<string>)
    ensures key == None || key == Some("") ==> Stored(table, group, key, value) == table
    ensures key == None || key == Some("") ==> GetString(table, group, key) == None
    ensures group == None || group == Some("") ==> GetString(table, group, key) == None
    ensures key == None ==> !HasKey(table, group, key)
  {
  }
}
