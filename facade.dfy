/** The entry point (src/FileMaker.php): a configuration that starts from
    fixed defaults, takes merged settings, and boots the driver its `driver`
    setting names, matched without regard to case. */
module Facade {
  import opened Wrappers
  import opened Common
  import NativeDriver
  import RestDriver

  const UnableToLoad := "Unable to load connection"
  const NoDriverSet := "No connection driver set"
  const UnknownDriver := "Unknown connection driver"

  /** The driver names `connection` recognises, in lower case. */
  const NativeName := "fmphp"
  const RestName := "fmrest"

  /** The driver a facade holds: none before a successful `connection`. */
  datatype Driver = NoDriver | Native(fmphp: NativeDriver.FMPHP) | Rest(fmrest: RestDriver.FMREST)

  datatype DriverKind = NativeKind | RestKind

  /** What the merged configuration's `driver` setting selects. */
  datatype Choice = Missing | Known(kind: DriverKind) | Unknown

  /** The argument of `connection` and of the constructor: an array (its
      string keys and values) or any other value. */
  datatype Argument = Entries(entries: map<string, Value>) | Other(value: Value)

  /** PHP's `empty()` on the constructor's argument. */
  predicate IsEmptyConfig(arg: Argument)
  {
    match arg
    case Entries(entries) => entries == map[]
    case Other(v) => IsEmptyValue(v)
  }

  /** The configuration `resetConnection` installs. */
  function Defaults(): (config: map<string, Value>)
    ensures config.Keys == {"driver", "host", "file", "user", "password", "verify_ssl"}
    ensures forall k :: k in config && k != "verify_ssl" ==> config[k] == Text("")
    ensures config["verify_ssl"] == Bool(true)
  {
    map["driver" := Text(""), "host" := Text(""), "file" := Text(""),
        "user" := Text(""), "password" := Text(""), "verify_ssl" := Bool(true)]
  }

  /** The driver the `driver` setting selects: none when it is empty (or
      absent), the native or REST driver when its lower-cased string form is
      'fmphp' or 'fmrest', and an unknown driver otherwise. */
  function DriverFor(config: map<string, Value>): (c: Choice)
    ensures c == Missing <==> IsEmptyValue(if "driver" in config then config["driver"] else Null)
    ensures c == Known(NativeKind) <==> "driver" in config && !IsEmptyValue(config["driver"]) &&
                                        Lower(TextOf(config["driver"])) == NativeName
    ensures c == Known(RestKind) <==> "driver" in config && !IsEmptyValue(config["driver"]) &&
                                      Lower(TextOf(config["driver"])) == RestName
  {
    var driver := if "driver" in config then config["driver"] else Null;
    if IsEmptyValue(driver) then Missing
    else if Lower(TextOf(driver)) == NativeName then Known(NativeKind)
    else if Lower(TextOf(driver)) == RestName then Known(RestKind)
    else Unknown
  }

  /** The configuration after `connection(arg)`: unchanged for a non-array,
      otherwise the supplied keys override and every other key stays. */
  function Merged(config: map<string, Value>, arg: Argument): (merged: map<string, Value>)
    ensures arg.Other? ==> merged == config
    ensures arg.Entries? ==> merged.Keys == config.Keys + arg.entries.Keys
    ensures arg.Entries? ==> forall k :: k in merged ==>
              merged[k] == if k in arg.entries then arg.entries[k] else config[k]
  {
    if arg.Entries? then config + arg.entries else config
  }

  /** What `connection(arg)` ends in: the driver it boots, or the exception. */
  function ConnectResult(config: map<string, Value>, arg: Argument): Result<DriverKind, Failure>
  {
    if arg.Other? then Failure(ConnectionError(UnableToLoad, 0))
    else match DriverFor(Merged(config, arg))
      case Missing => Failure(ConnectionError(NoDriverSet, 0))
      case Unknown => Failure(ConnectionError(UnknownDriver, 0))
      case Known(kind) => Success(kind)
  }

  /** A driver name is recognised whatever the case of its letters: the
      lower-cased form equals a lower-case name exactly when each character
      is that name's letter or its upper-case counterpart. */
  lemma CaseInsensitiveName(s: string, name: string)
    requires forall i :: 0 <= i < |name| ==> 'a' <= name[i] <= 'z'
    ensures Lower(s) == name <==>
              |s| == |name| && forall i :: 0 <= i < |s| ==> s[i] == name[i] || s[i] as int == name[i] as int - 32
  {
    if |s| == |name| && forall i :: 0 <= i < |s| ==> s[i] == name[i] || s[i] as int == name[i] as int - 32 {
      forall i | 0 <= i < |s|
        ensures Lower(s)[i] == name[i]
      {
        if s[i] != name[i] {
          assert 'A' <= s[i] <= 'Z';
        }
      }
    }
  }

  /** Upper- and mixed-case spellings select the same drivers. */
  lemma MixedCaseDriverNames()
    ensures DriverFor(map["driver" := Text("FMREST")]) == Known(RestKind)
    ensures DriverFor(map["driver" := Text("FmPhp")]) == Known(NativeKind)
    ensures DriverFor(map["driver" := Text("fm-rest")]) == Unknown
  {
    CaseInsensitiveName("FMREST", RestName);
    CaseInsensitiveName("FmPhp", NativeName);
    CaseInsensitiveName("FmPhp", RestName);
    CaseInsensitiveName("fm-rest", NativeName);
    CaseInsensitiveName("fm-rest", RestName);
  }

  /** `connection` outcomes: a non-array fails first; otherwise the merge
      happens, and the merged `driver` alone decides the outcome, so a
      configuration without a driver key fails when the old one had none. */
  lemma ConnectOutcomes(config: map<string, Value>, arg: Argument)
    ensures arg.Other? ==> ConnectResult(config, arg) == Failure(ConnectionError(UnableToLoad, 0))
    ensures arg.Entries? && "driver" in arg.entries ==>
              ConnectResult(config, arg) == ConnectResult(map[], arg)
    ensures arg.Entries? && "driver" !in arg.entries && "driver" in config && IsEmptyValue(config["driver"]) ==>
              ConnectResult(config, arg) == Failure(ConnectionError(NoDriverSet, 0))
    ensures ConnectResult(config, arg).Success? ==>
              (ConnectResult(config, arg).value == NativeKind <==> Lower(TextOf(Merged(config, arg)["driver"])) == NativeName)
  {
  }

  /** Starting from the defaults, supplying no driver always fails with
      'No connection driver set', whatever else is supplied. */
  lemma DefaultsNeedADriver(entries: map<string, Value>)
    requires "driver" !in entries
    ensures ConnectResult(Defaults(), Entries(entries)) == Failure(ConnectionError(NoDriverSet, 0))
    ensures Merged(Defaults(), Entries(entries))["verify_ssl"]
            == if "verify_ssl" in entries then entries["verify_ssl"] else Bool(true)
  {
  }

  class FileMaker {
    var config: map<string, Value>
    var driver: Driver

    /** `new FileMaker()`: the defaults and no driver. */
    constructor ()
      ensures config == Defaults() && driver == NoDriver
    {
      config := Defaults();
      driver := NoDriver;
    }

    /** `resetConnection`: back to the defaults; the driver stays. */
    method ResetConnection()
      modifies this`config
      ensures config == Defaults()
    {
      config := Defaults();
    }

    /** `connection($config)`: merges first, so the merged configuration is
        kept even when the driver check then throws; a driver is booted,
        fresh and holding the merged configuration, only on success. */
    method Connection(arg: Argument) returns (failure: Option<Failure>)
      modifies this`config, this`driver
      ensures config == Merged(old(config), arg)
      ensures ConnectResult(old(config), arg).Failure? ==>
                failure == Some(ConnectResult(old(config), arg).error) && driver == old(driver)
      ensures ConnectResult(old(config), arg) == Success(NativeKind) ==>
                failure == None && driver.Native? && fresh(driver.fmphp) && driver.fmphp.connection == config &&
                driver.fmphp.Unbuilt()
      ensures ConnectResult(old(config), arg) == Success(RestKind) ==>
                failure == None && driver.Rest? && fresh(driver.fmrest) && driver.fmrest.connection == config &&
                driver.fmrest.Unbuilt() && driver.fmrest.Valid()
    {
      if arg.Other? {
        return Some(ConnectionError(UnableToLoad, 0));
      }
      config := config + arg.entries;
      var name := if "driver" in config then config["driver"] else Null;
      if IsEmptyValue(name) {
        return Some(ConnectionError(NoDriverSet, 0));
      }
      var lowered := Lower(TextOf(name));
      if lowered == NativeName {
        BootNative();
      } else if lowered == RestName {
        BootRest();
      } else {
        return Some(ConnectionError(UnknownDriver, 0));
      }
      failure := None;
    }

    /** `bootFMPHPDriver`. */
    method BootNative()
      modifies this`driver
      ensures driver.Native? && fresh(driver.fmphp) && driver.fmphp.connection == config
      ensures driver.fmphp.Unbuilt()
    {
      var fmphp := new NativeDriver.FMPHP();
      fmphp.SetConnection(config);
      driver := Native(fmphp);
    }

    /** `bootFMRESTDriver`. */
    method BootRest()
      modifies this`driver
      ensures driver.Rest? && fresh(driver.fmrest) && driver.fmrest.connection == config
      ensures driver.fmrest.Unbuilt() && driver.fmrest.Valid()
    {
      var fmrest := new RestDriver.FMREST();
      fmrest.SetConnection(config);
      driver := Rest(fmrest);
    }

    /** `new FileMaker($config)`: the defaults, then `connection` unless the
        argument is empty; an exception from `connection` means no facade. */
    static method Create(arg: Argument) returns (r: Result<FileMaker, Failure>)
      ensures IsEmptyConfig(arg) ==> r.Success? && fresh(r.value) &&
                                     r.value.config == Defaults() && r.value.driver == NoDriver
      ensures !IsEmptyConfig(arg) && ConnectResult(Defaults(), arg).Failure? ==>
                r == Failure(ConnectResult(Defaults(), arg).error)
      ensures !IsEmptyConfig(arg) && ConnectResult(Defaults(), arg).Success? ==>
                r.Success? && fresh(r.value) && r.value.config == Merged(Defaults(), arg) &&
                (r.value.driver.Native? <==> ConnectResult(Defaults(), arg).value == NativeKind) &&
                (r.value.driver.Rest? <==> ConnectResult(Defaults(), arg).value == RestKind) &&
                (r.value.driver.Native? ==> r.value.driver.fmphp.connection == r.value.config &&
                                            r.value.driver.fmphp.Unbuilt()) &&
                (r.value.driver.Rest? ==> r.value.driver.fmrest.connection == r.value.config &&
                                          r.value.driver.fmrest.Unbuilt() && r.value.driver.fmrest.Valid())
    {
      var facade := new FileMaker();
      if !IsEmptyConfig(arg) {
        var failure := facade.Connection(arg);
        if failure.Some? {
          return Failure(failure.value);
        }
      }
      r := Success(facade);
    }
  }
}
