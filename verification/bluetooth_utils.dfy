/** The device-name classifier (BluetoothUtils): keyword checks on the
    lower-cased display name, tool-number checks against the values of four
    constant tables, and their composites. A Java call that throws is modelled
    as an Outcome that is Throws; the validators that can throw also have a
    guarded counterpart that answers false instead. */
module BluetoothUtils {
  import opened Wrappers
  import opened JavaStrings
  import opened Devices

  /** GLM 120 family: bare tool number to device name. */
  const GLM_120_DEV_TYPES: map<string, string> := map[
    "3601K72F00" := "Bosch GLM 120 C",
    "00F27K1063" := "Bosch GLM 120 C",
    "3601K72F51" := "Bosch GLM 120 C JP",
    "15F27K1063" := "Bosch GLM 120 C JP",
    "3601K72F10" := "Bosch GLM400C",
    "01F27K1063" := "Bosch GLM400C",
    "3601K72F13" := "Bosch GLM400CL",
    "13F27K1063" := "Bosch GLM400CL",
    "3601K72FK0" := "Bosch GLM 150 C",
    "0KF27K1063" := "Bosch GLM 150 C",
    "3601K72F50" := "Bosch GLM 150 C",
    "05F27K1063" := "Bosch GLM 150 C",
    "3601K72FC0" := "Bosch GLM 150 C",
    "0CF27K1063" := "Bosch GLM 150 C"
  ]

  /** GLM 150-27 devices, treated like GLM 120. */
  const GLM_150_DEV_TYPES: map<string, string> := map[
    "3601K72Z00" := "Bosch GLM 150-27 C",
    "00Z27K1063" := "Bosch GLM 150-27 C",
    "3601K72Z50" := "Bosch GLM 150-27 C",
    "05Z27K1063" := "Bosch GLM 150-27 C"
  ]

  /** GLM 100-25 devices, treated like GLM 120. */
  const GLM_100_DEV_TYPES: map<string, string> := map[
    "3601K72Y00" := "Bosch GLM 100-25 C",
    "00Y27K1063" := "Bosch GLM 100-25 C",
    "3601K72Y50" := "Bosch GLM 100-25 C",
    "05Y27K1063" := "Bosch GLM 100-25 C",
    "3601K72YK0" := "Bosch GLM 100-25 C",
    "0KY27K1063" := "Bosch GLM 100-25 C"
  ]

  /** GLM 50-2 family. */
  const GLM_50_2_DEV_TYPES: map<string, string> := map[
    "3601K72T00" := "Bosch GLM50-27 C",
    "00T27K1063" := "Bosch GLM50-27 C",
    "3601K72U00" := "Bosch GLM50-27 CG",
    "00U27K1063" := "Bosch GLM50-27 CG",
    "3601K72T10" := "Bosch Blaze165-27C",
    "01T27K1063" := "Bosch Blaze165-27C",
    "3601K72U10" := "Bosch Blaze165-27CG",
    "01U27K1063" := "Bosch Blaze165-27CG",
    "3601K72UK0" := "Bosch GLM50-27 CG AP",
    "0KU27K1063" := "Bosch GLM50-27 CG AP",
    "3601K72U50" := "Bosch GLM50-27 CG JP",
    "05U27K1063" := "Bosch GLM50-27 CG JP"
  ]

  /** device.getDisplayName() guarded by device != null. */
  function DisplayName(device: Option<Device>): Option<string> {
    if device.Some? then device.value.displayName else None
  }

  /** The name lower-cased, as toLowerCase(Locale.getDefault()) gives it. */
  function Lowered(name: Option<string>): string
    requires name.Some?
  {
    ToLower(name.value)
  }

  // ---------------------------------------------------------------------------
  // Keyword checks

  /** validateDeviceName: a Bosch device. */
  function ValidateDeviceName(deviceName: Option<string>): (r: bool)
    ensures deviceName.None? ==> !r
    ensures r ==> |deviceName.value| >= 5
  {
    deviceName.Some? && Contains(ToLower(deviceName.value), "bosch")
  }

  /** validateGLM100Name. */
  function ValidateGLM100Name(device: Option<Device>): (r: bool)
    ensures DisplayName(device).None? ==> !r
    ensures r ==> ValidateDeviceName(DisplayName(device))
  {
    var name := DisplayName(device);
    name.Some?
    && Contains(Lowered(name), "bosch")
    && Contains(Lowered(name), "glm1")
    && Contains(Lowered(name), "100")
  }

  /** validateGLM50Name: the GLM 50 without the "-2" of the GLM 50-2 family. */
  function ValidateGLM50Name(device: Option<Device>): (r: bool)
    ensures DisplayName(device).None? ==> !r
    ensures r ==> ValidateDeviceName(DisplayName(device))
    ensures r ==> !Contains(Lowered(DisplayName(device)), "-2")
  {
    var name := DisplayName(device);
    name.Some?
    && Contains(Lowered(name), "bosch")
    && Contains(Lowered(name), "glm5")
    && Contains(Lowered(name), "50")
    && !Contains(Lowered(name), "-2")
  }

  /** validateGISName: dereferences the device without a null check. */
  function ValidateGISName(device: Option<Device>): (r: Outcome<bool>)
    ensures r.Throws? <==> device.None?
    ensures r.Throws? ==> r.exception == NullPointerException
    ensures r == Returns(true) ==> ValidateDeviceName(DisplayName(device))
  {
    if device.None? then Throws(NullPointerException)
    else
      var name := device.value.displayName;
      Returns(name.Some?
              && Contains(Lowered(name), "bosch")
              && Contains(Lowered(name), "gis")
              && Contains(Lowered(name), "1000"))
  }

  /** validatePLRName: "bosch", "plr" and one of "30", "40", "50". */
  function ValidatePLRName(device: Option<Device>): (r: bool)
    ensures DisplayName(device).None? ==> !r
    ensures r ==> ValidateDeviceName(DisplayName(device))
  {
    var name := DisplayName(device);
    name.Some?
    && Contains(Lowered(name), "bosch")
    && Contains(Lowered(name), "plr")
    && (Contains(Lowered(name), "30") || Contains(Lowered(name), "40") || Contains(Lowered(name), "50"))
  }

  // ---------------------------------------------------------------------------
  // Tool-number checks

  /** A device name of the GLM 120, GLM 100-25 or GLM 150-27 tables. */
  predicate IsGLM120FamilyName(toolName: string) {
    toolName in GLM_120_DEV_TYPES.Values
    || toolName in GLM_100_DEV_TYPES.Values
    || toolName in GLM_150_DEV_TYPES.Values
  }

  /** A device name of the GLM 50-2 table. */
  predicate IsGLM50_2FamilyName(toolName: string) {
    toolName in GLM_50_2_DEV_TYPES.Values
  }

  /** The fragment the tool-number checks look up: the part of the name before
      its first 'x', without the character just before the 'x'. None when the
      name has no 'x' or starts with one, the two cases in which the source's
      substring(0, indexOf("x") - 1) throws. */
  function ToolFragment(name: string): (r: Option<string>)
    ensures r.None? <==> 'x' !in name || name[0] == 'x'
    ensures r.Some? ==>
              |r.value| + 1 < |name| && name[|r.value| + 1] == 'x'
              && 'x' !in name[..|r.value| + 1] && r.value == name[..|r.value|]
  {
    IndexOfChar(name, 'x');
    var i := IndexOf(name, "x");
    if i < 1 then None else Some(name[..i - 1])
  }

  /** validateGLM120Name, as written: substring(0, indexOf("x") - 1) throws
      when the name starts with 'x'. */
  function ValidateGLM120Name(device: Option<Device>): (r: Outcome<bool>)
    ensures r.Throws? <==> DisplayName(device).Some? && |DisplayName(device).value| > 0
                            && DisplayName(device).value[0] == 'x'
    ensures r.Throws? ==> r.exception == StringIndexOutOfBoundsException
    ensures r.Returns? ==> (r.value <==> ValidateGLM120NameGuarded(device))
  {
    var deviceName := DisplayName(device);
    if deviceName.Some? && Contains(deviceName.value, "x") then
      IndexOfChar(deviceName.value, 'x');
      match Substring(deviceName.value, 0, IndexOf(deviceName.value, "x") - 1)
      case Returns(toolName) => Returns(IsGLM120FamilyName(toolName))
      case Throws(e) => Throws(e)
    else
      IndexOfChar(if deviceName.Some? then deviceName.value else "", 'x');
      Returns(false)
  }

  /** validateGLM50_2Name, as written: no guard at all, so it throws both when
      the name has no 'x' and when it starts with one. */
  function ValidateGLM50_2Name(device: Option<Device>): (r: Outcome<bool>)
    ensures r.Throws? <==> DisplayName(device).Some? && ToolFragment(DisplayName(device).value).None?
    ensures r.Throws? ==> r.exception == StringIndexOutOfBoundsException
    ensures r.Returns? ==> (r.value <==> ValidateGLM50_2NameGuarded(device))
  {
    var deviceName := DisplayName(device);
    if deviceName.None? then Returns(false)
    else
      IndexOfChar(deviceName.value, 'x');
      match Substring(deviceName.value, 0, IndexOf(deviceName.value, "x") - 1)
      case Returns(toolName) => Returns(IsGLM50_2FamilyName(toolName))
      case Throws(e) => Throws(e)
  }

  /** validateEDCDevice, as written: the short-circuit disjunction
      GLM50 || GLM120 || GLM50_2 || PLR, in which an exception propagates. */
  function ValidateEDCDevice(device: Option<Device>): (r: Outcome<bool>)
    ensures ValidateGLM50Name(device) ==> r == Returns(true)
    ensures r.Throws? <==> !ValidateGLM50Name(device) && DisplayName(device).Some?
                            && ToolFragment(DisplayName(device).value).None?
    ensures r.Throws? ==> r.exception == StringIndexOutOfBoundsException
    ensures r.Returns? ==> (r.value <==> ValidateEDCDeviceGuarded(device))
  {
    if ValidateGLM50Name(device) then Returns(true)
    else match ValidateGLM120Name(device)
      case Throws(e) => Throws(e)
      case Returns(true) => Returns(true)
      case Returns(false) =>
        match ValidateGLM50_2Name(device)
        case Throws(e) => Throws(e)
        case Returns(true) => Returns(true)
        case Returns(false) => Returns(ValidatePLRName(device))
  }

  // ---------------------------------------------------------------------------
  // Guarded tool-number checks: false where the source throws

  /** validateGLM120Name answering false for a name that starts with 'x'. */
  predicate ValidateGLM120NameGuarded(device: Option<Device>) {
    var name := DisplayName(device);
    name.Some? && ToolFragment(name.value).Some? && IsGLM120FamilyName(ToolFragment(name.value).value)
  }

  /** validateGLM50_2Name answering false where the source throws. */
  predicate ValidateGLM50_2NameGuarded(device: Option<Device>) {
    var name := DisplayName(device);
    name.Some? && ToolFragment(name.value).Some? && IsGLM50_2FamilyName(ToolFragment(name.value).value)
  }

  /** validateEDCDevice built from the guarded checks: never throws. */
  predicate ValidateEDCDeviceGuarded(device: Option<Device>) {
    ValidateGLM50Name(device) || ValidateGLM120NameGuarded(device)
    || ValidateGLM50_2NameGuarded(device) || ValidatePLRName(device)
  }

  // ---------------------------------------------------------------------------
  // Properties of the tables

  /** The device names each table holds, read off its entries. */
  lemma TableValues()
    ensures GLM_120_DEV_TYPES.Values
            == {"Bosch GLM 120 C", "Bosch GLM 120 C JP", "Bosch GLM400C", "Bosch GLM400CL", "Bosch GLM 150 C"}
    ensures GLM_100_DEV_TYPES.Values == {"Bosch GLM 100-25 C"}
    ensures GLM_150_DEV_TYPES.Values == {"Bosch GLM 150-27 C"}
    ensures GLM_50_2_DEV_TYPES.Values
            == {"Bosch GLM50-27 C", "Bosch GLM50-27 CG", "Bosch Blaze165-27C", "Bosch Blaze165-27CG",
                "Bosch GLM50-27 CG AP", "Bosch GLM50-27 CG JP"}
  {
    ValuesOf(GLM_120_DEV_TYPES, {"Bosch GLM 120 C", "Bosch GLM 120 C JP", "Bosch GLM400C", "Bosch GLM400CL", "Bosch GLM 150 C"});
    assert GLM_120_DEV_TYPES["3601K72F00"] == "Bosch GLM 120 C";
    assert GLM_120_DEV_TYPES["3601K72F51"] == "Bosch GLM 120 C JP";
    assert GLM_120_DEV_TYPES["3601K72F10"] == "Bosch GLM400C";
    assert GLM_120_DEV_TYPES["3601K72F13"] == "Bosch GLM400CL";
    assert GLM_120_DEV_TYPES["3601K72FK0"] == "Bosch GLM 150 C";
    ValuesOf(GLM_100_DEV_TYPES, {"Bosch GLM 100-25 C"});
    assert GLM_100_DEV_TYPES["3601K72Y00"] == "Bosch GLM 100-25 C";
    ValuesOf(GLM_150_DEV_TYPES, {"Bosch GLM 150-27 C"});
    assert GLM_150_DEV_TYPES["3601K72Z00"] == "Bosch GLM 150-27 C";
    ValuesOf(GLM_50_2_DEV_TYPES, {"Bosch GLM50-27 C", "Bosch GLM50-27 CG", "Bosch Blaze165-27C", "Bosch Blaze165-27CG",
                                  "Bosch GLM50-27 CG AP", "Bosch GLM50-27 CG JP"});
    assert GLM_50_2_DEV_TYPES["3601K72T00"] == "Bosch GLM50-27 C";
    assert GLM_50_2_DEV_TYPES["3601K72U00"] == "Bosch GLM50-27 CG";
    assert GLM_50_2_DEV_TYPES["3601K72T10"] == "Bosch Blaze165-27C";
    assert GLM_50_2_DEV_TYPES["3601K72U10"] == "Bosch Blaze165-27CG";
    assert GLM_50_2_DEV_TYPES["3601K72UK0"] == "Bosch GLM50-27 CG AP";
    assert GLM_50_2_DEV_TYPES["3601K72U50"] == "Bosch GLM50-27 CG JP";
  }

  /** Every value of m lies in names. */
  lemma ValuesOf(m: map<string, string>, names: set<string>)
    requires forall k :: k in m ==> m[k] in names
    ensures m.Values <= names
  {
    forall v | v in m.Values ensures v in names {
      var k :| k in m && m[k] == v;
    }
  }

  /** Every table name starts with "Bosch". */
  lemma TableNamesStartWithBosch(v: string)
    requires IsGLM120FamilyName(v) || IsGLM50_2FamilyName(v)
    ensures |v| >= 5 && v[..5] == "Bosch"
  {
    TableValues();
  }

  /** Every name of the GLM 50-2 table carries the "-2" that validateGLM50Name rejects. */
  lemma GLM50_2NamesCarryDashTwo(v: string)
    requires IsGLM50_2FamilyName(v)
    ensures Contains(ToLower(v), "-2")
  {
    TableValues();
    if v == "Bosch Blaze165-27C" || v == "Bosch Blaze165-27CG" {
      DashTwoAt(v, 14);
    } else {
      DashTwoAt(v, 11);
    }
  }

  /** A name that starts with "Bosch" contains "bosch" once lower-cased. */
  lemma StartsWithBosch(v: string)
    requires |v| >= 5 && v[..5] == "Bosch"
    ensures Contains(ToLower(v), "bosch")
  {
    assert OccursAt(v, "Bosch", 0);
    OccursLowered(v, "Bosch", 0);
    assert ToLower("Bosch") == "bosch";
  }

  /** A name with "-2" at position i contains "-2" once lower-cased. */
  lemma DashTwoAt(v: string, i: nat)
    requires i + 1 < |v| && v[i] == '-' && v[i + 1] == '2'
    ensures Contains(ToLower(v), "-2")
  {
    assert v[i..i + 2] == "-2";
    OccursLowered(v, "-2", i);
    assert ToLower("-2") == "-2";
  }

  /** What the lower-cased tool-number fragment contains, the lower-cased
      name contains. */
  lemma FragmentContains(name: string, key: string)
    requires ToolFragment(name).Some?
    requires Contains(ToLower(ToolFragment(name).value), key)
    ensures Contains(ToLower(name), key)
  {
    var fragment := ToolFragment(name).value;
    ToLowerPrefix(name, |fragment|);
    ContainsFromPrefix(ToLower(name), |fragment|, key);
  }

  // ---------------------------------------------------------------------------
  // Properties of the classifier

  /** A device accepted by either tool-number check is a Bosch device. */
  lemma ToolNumberMatchIsBosch(device: Option<Device>)
    requires ValidateGLM120NameGuarded(device) || ValidateGLM50_2NameGuarded(device)
    ensures ValidateDeviceName(DisplayName(device))
  {
    var name := DisplayName(device).value;
    var fragment := ToolFragment(name).value;
    TableNamesStartWithBosch(fragment);
    StartsWithBosch(fragment);
    FragmentContains(name, "bosch");
  }

  /** The "-2" exclusion keeps the two GLM 50 families apart: a device of the
      GLM 50-2 table is never a GLM 50. */
  lemma GLM50_2FamilyIsNotGLM50(device: Option<Device>)
    requires ValidateGLM50_2NameGuarded(device)
    ensures !ValidateGLM50Name(device)
  {
    var name := DisplayName(device).value;
    GLM50_2NamesCarryDashTwo(ToolFragment(name).value);
    FragmentContains(name, "-2");
  }

  /** No device matches both tool-number checks. */
  lemma ToolFamiliesDisjoint(device: Option<Device>)
    ensures !(ValidateGLM120NameGuarded(device) && ValidateGLM50_2NameGuarded(device))
  {
    TableValues();
  }

  /** The keyword checks ignore case. */
  lemma KeywordChecksIgnoreCase(d: Option<Device>, e: Option<Device>)
    requires DisplayName(d).Some? && DisplayName(e).Some?
    requires ToLower(DisplayName(d).value) == ToLower(DisplayName(e).value)
    ensures ValidateGLM100Name(d) == ValidateGLM100Name(e)
    ensures ValidateGLM50Name(d) == ValidateGLM50Name(e)
    ensures ValidatePLRName(d) == ValidatePLRName(e)
    ensures ValidateGISName(d) == ValidateGISName(e)
    ensures ValidateDeviceName(DisplayName(d)) == ValidateDeviceName(DisplayName(e))
  {
  }

  /** A bare tool number is no match: its fragment "00F27K106" is compared
      with the tables' device names, not with their tool-number keys. */
  lemma RawToolNumberIsNoMatch(address: Option<string>)
    ensures ValidateGLM120Name(Some(Device(Some("00F27K1063x1"), address))) == Returns(false)
  {
    var name := "00F27K1063x1";
    var fragment := ToolFragment(name).value;
    assert fragment == name[..|fragment|];
    if IsGLM120FamilyName(fragment) {
      TableNamesStartWithBosch(fragment);
      assert false;
    }
  }

  /** A display name followed by " x" and a suffix matches. */
  lemma DisplayNameWithSuffixMatches(address: Option<string>)
    ensures ValidateGLM120Name(Some(Device(Some("Bosch GLM 120 C x1"), address))) == Returns(true)
  {
    var name := "Bosch GLM 120 C x1";
    assert 'x' !in name[..16] && name[16] == 'x';
    FragmentBeforeX(name, 16);
    assert name[..15] == "Bosch GLM 120 C";
    TableValues();
  }

  /** The fragment of a name whose first 'x' stands at position i >= 1. */
  lemma FragmentBeforeX(name: string, i: nat)
    requires 1 <= i < |name| && name[i] == 'x' && 'x' !in name[..i]
    ensures ToolFragment(name) == Some(name[..i - 1])
  {
  }

  // ---------------------------------------------------------------------------
  // The checks as written against the guarded checks

  /** The guarded GLM 120 check accepts exactly where the source returns true;
      where the source throws it answers false. */
  lemma GLM120GuardedAgrees(device: Option<Device>)
    ensures ValidateGLM120NameGuarded(device) <==> ValidateGLM120Name(device) == Returns(true)
  {
  }

  /** The guarded GLM 50-2 check accepts exactly where the source returns true;
      where the source throws it answers false. */
  lemma GLM50_2GuardedAgrees(device: Option<Device>)
    ensures ValidateGLM50_2NameGuarded(device) <==> ValidateGLM50_2Name(device) == Returns(true)
  {
  }

  /** The guarded composite accepts exactly where the source returns true, and
      where the source throws it gives the answer of validatePLRName, the check
      the exception keeps the source from reaching. */
  lemma EDCGuardedAgrees(device: Option<Device>)
    ensures ValidateEDCDeviceGuarded(device) <==>
              ValidateEDCDevice(device) == Returns(true)
              || (ValidateEDCDevice(device).Throws? && ValidatePLRName(device))
  {
  }

  /** Finding: validateGLM120Name throws for the name "x" instead of
      answering false. */
  lemma LeadingXThrowsInGLM120(address: Option<string>)
    ensures ValidateGLM120Name(Some(Device(Some("x"), address))) == Throws(StringIndexOutOfBoundsException)
    ensures !ValidateGLM120NameGuarded(Some(Device(Some("x"), address)))
  {
  }

  /** Finding: a PLR device whose name has no 'x' makes validateEDCDevice
      throw in validateGLM50_2Name before validatePLRName is reached; the
      guarded composite accepts it. */
  lemma PLRDeviceMakesEDCThrow(device: Option<Device>)
    requires DisplayName(device) == Some("Bosch PLR 50 C")
    ensures ValidatePLRName(device)
    ensures ValidateEDCDevice(device) == Throws(StringIndexOutOfBoundsException)
    ensures ValidateEDCDeviceGuarded(device)
  {
    var name := "Bosch PLR 50 C";
    assert name[..5] == "Bosch" && OccursAt(name, "PLR", 6) && OccursAt(name, "50", 10);
    assert 'x' !in name && 'g' !in name && 'G' !in name;
    PLRByPositions(device, 6, 10);
    NoGLetterNoGLM50(device);
    EDCThrowsWithoutX(device);
  }

  /** A device that is no GLM 50 and whose name has no 'x' makes
      validateEDCDevice throw; the guarded composite then answers as
      validatePLRName does. */
  lemma EDCThrowsWithoutX(device: Option<Device>)
    requires DisplayName(device).Some? && 'x' !in DisplayName(device).value
    requires !ValidateGLM50Name(device)
    ensures ValidateEDCDevice(device) == Throws(StringIndexOutOfBoundsException)
    ensures ValidateEDCDeviceGuarded(device) <==> ValidatePLRName(device)
  {
  }

  /** A name that starts with "Bosch" and holds "PLR" and "50" is a PLR. */
  lemma PLRByPositions(device: Option<Device>, i: int, j: int)
    requires DisplayName(device).Some?
    requires |DisplayName(device).value| >= 5 && DisplayName(device).value[..5] == "Bosch"
    requires OccursAt(DisplayName(device).value, "PLR", i) && OccursAt(DisplayName(device).value, "50", j)
    ensures ValidatePLRName(device)
  {
    var name := DisplayName(device).value;
    StartsWithBosch(name);
    OccursLowered(name, "PLR", i);
    assert ToLower("PLR") == "plr";
    OccursLowered(name, "50", j);
    assert ToLower("50") == "50";
  }

  /** A name without the letter g is no GLM 50. */
  lemma NoGLetterNoGLM50(device: Option<Device>)
    requires DisplayName(device).Some?
    requires 'g' !in DisplayName(device).value && 'G' !in DisplayName(device).value
    ensures !ValidateGLM50Name(device)
  {
    var name := DisplayName(device).value;
    var lowered := ToLower(name);
    forall k | 0 <= k < |name| ensures lowered[k] != 'g' {
      assert name[k] != 'g' && name[k] != 'G';
    }
    MissingFirstChar(lowered, "glm5");
  }
}
