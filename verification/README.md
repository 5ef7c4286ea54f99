# Robot-2020 start-up core in Dafny

This project models the start-up path of Raptacon's 2020 robot code, together with the small components that run on top of it. The robot code is written in Python with RobotPy and magicbot. At start-up the code:

- chooses which robot configuration (variant) is active;
- loads the chosen hardware manifest;
- registers the hardware constructor classes under their `__type__` names;
- builds every manifest descriptor into a hardware object, grouped under the compound key `group + "_" + subsystem`;
- switches off the control components whose `compatString` or `robot` list does not name the active robot.

The repository holds several rewrites of each step. Each rewrite is its own module here, so the differences between them are stated precisely.

The same Dafny types are used throughout:

- **`Dicts`**: ordered association lists. They give Python's insertion-ordered dicts. `Get` raises KeyError, and `Set`, `Remove` and `Update` behave as the dict methods do.
- **`Values`**: one datatype for every loaded JSON/YAML value and every class attribute. Python's `in`, indexing, iteration, truthiness and hashability are explicit, and each can fail.
- **`Wrappers`**: `Result` with Python's exception kinds as the error type. An operation fails exactly where the Python code raises.

Things outside the modelled code are parameters or tagged records:

- Vendor constructors (CTRE, REV, wpilib and navX) become tagged records of the type built and the arguments passed.
- Reflection (`get_type_hints`, `import_module`, `getattr` on modules) becomes declaration records and function parameters.
- File contents, directory walks and listings, the marker file's first line, and controller readings are parameters.

The modules follow the source files:

| area | modules |
|---|---|
| Type registry and descriptor builder | `ConfigWindow`, `HardwareManager`, `SparkMax`, `Motors`, `TmpMotors`, `MotorHelper`, `Actuator`, `HardwareMap`, `Hardware` |
| Initialisers and compatibility filter | `ConfigManager`, `FactoryWalk`, `NewInitializer`, `RobotInitializer`, `ReworkedConfig`, `Compat`, `ComponentUtils`, `RobotUtil`, `ConfigUtil` |
| Manifest and file helpers | `JsonConfigMapper`, `ConfigMapper`, `GroupDicts`, `FileSearch`, `FileHandler`, `SrcFileHandler`, `FileManager` |
| Components and button managers | `DriveTrain`, `ShooterMotors`, `Pneumatics`, `BreakSensors`, `FeederMap`, `Elevator`, `Winch`, `TmpWinch`, `Intake`, `ButtonEvents`, `ButtonManager`, `TmpButtonManager` |

Where the code does something its authors evidently did not intend, the model keeps the behaviour as written in one member. A corrected member sits beside it, and lemmas relate the two (see "## Findings").

## Model

| member | source | states |
|---|---|---|
| Hardware.PopType | utils/configwindow.py:206 | the type is the descriptor's "type" value or None, and every other key keeps its value in the rest, which no longer holds "type" |
| Hardware.Instantiate | utils/configwindow.py:246-248 | the constructor is called with no arguments exactly when the descriptor is empty, and with the whole descriptor otherwise |
| Hardware.Construct | utils/hardwaremanager.py:95-96 | the same zero-argument rule for a registered constructor class |
| Hardware.Compound | utils/configwindow.py:256 | the attribute name is the outer name, '_' and the inner name, in that order and nothing else |
| Hardware.GroupSubsystem | factories/actuator.py:62 | the factory walks name the attribute group first, then '_', then subsystem |
| Hardware.CompoundInjective | utils/configwindow.py:256 | within one general type, different subsystem names never share an attribute |
| Hardware.BuildItems | utils/configwindow.py:253-255 | succeeds iff every item builds; keeps the item names in order with each value replaced by its built object; a failure is the first failing item's error |
| Hardware.AsDesc | utils/configwindow.py:206 | only a dict descriptor can have its "type" popped |
| Hardware.Walk | utils/configwindow.py:250-261 | the walk succeeds iff every outer value is a dict and every inner entry finds its factory, is a dict and has every item build; a completed walk counted exactly the items two levels down |
| Hardware.WalkStep | utils/configwindow.py:250-261 | the success condition and count for the remaining outer entries, after the first, give those for all of them |
| Hardware.BuildEntry | utils/configwindow.py:252-257 | one group builds iff its factory resolves, its value is a dict and every item builds, and then holds each item's built object under the item's name |
| Hardware.WalkValues | utils/configwindow.py:250-261 | after the walk each attribute holds the built items of the last (outer, inner) pair naming it, and every name no pair sets keeps its earlier value |
| Hardware.WalkValuesStep | utils/configwindow.py:250-261 | the first outer entry's attributes survive unless a later pair names them again |
| Hardware.Inject | utils/configwindow.py:250-261 | from a robot with no attributes: success iff every group builds; the count; exactly one attribute per pair; each holding the items of the last pair naming it |
| Hardware.AlwaysBuilds | utils/configwindow.py:250-261 | with one builder for every group, the walk succeeds iff every outer and inner value is a dict and every item builds |
| Hardware.InjectAll | utils/configwindow.py:250-261 | the same walk with one builder, success stated item by item |
| Hardware.WalkNames | utils/configwindow.py:251-257 | every (outer, inner) pair of the configuration contributes its attribute name |
| Hardware.WalkAttrs | utils/configwindow.py:250-261 | the attributes after the walk are exactly the earlier ones plus one per (outer, inner) pair |
| Hardware.WalkInner | utils/configwindow.py:252-260 | the inner loop succeeds iff every inner entry builds; a failure is the first failing entry's error; a success counts exactly the items of its groups |
| Hardware.WalkInnerStep | utils/configwindow.py:252-260 | the inner loop's facts for the remaining entries, after the first built, give those for all entries |
| Hardware.WalkInnerValues | utils/configwindow.py:252-257 | after the inner loop each attribute holds the items of the last entry naming it, and other names keep their earlier values |
| Hardware.WalkInnerValuesStep | utils/configwindow.py:252-257 | the first entry's attribute survives unless a later entry names it again |
| Hardware.InnerNames | utils/configwindow.py:256 | one attribute name per inner entry, in order |
| Hardware.WalkInnerAttrs | utils/configwindow.py:252-257 | the inner loop adds exactly one attribute per inner entry |
| Hardware.HasRequired | utils/configwindow.py:238 | `attr in desc` fails only for an unhashable attr and is true only for a str key of the descriptor |
| Hardware.CheckEach | utils/configwindow.py:236-240 | succeeds iff every required key is present; otherwise the first absent one raises MissingRequiredKeysError, or TypeError if it is unhashable |
| ConfigWindow.LastFive | utils/configwindow.py:85 | `s[-5:]` is a suffix of length min(5, len) |
| ConfigWindow.FormatCheck | utils/configwindow.py:80-85 | true exactly when the name ends in ".json" |
| ConfigWindow.ChooseConfig | utils/configwindow.py:63-75 | no configured name falls back to the default; the result is accepted iff it ends in ".json", else SyntaxError |
| ConfigWindow.Name | utils/configwindow.py:98-106 | `strip(".json")` splits the config name as prefix + name + suffix, where every character of the prefix and the suffix is one of '.', 'j', 's', 'o', 'n' and the name is empty or neither starts nor ends with one of them (the strip is maximal on both sides) |
| ConfigWindow.IntendedName | utils/configwindow.py:98-106 | the corrected name: it plus ".json" is the config name when that suffix is present, otherwise the name unchanged |
| ConfigWindow.IntendedNameRoundTrip | utils/configwindow.py:98-106 | the corrected name of robot + ".json" is the robot's name |
| ConfigWindow.NameStripsRobotLetters | utils/configwindow.py:106 | a robot name starting or ending with one of those letters does not come back from `name`, but does from the corrected name |
| ConfigWindow.Register | utils/configwindow.py:309-352 | NoTypeFoundError without `__type__`, TypeError for a non-str one, ValueError for more than two positional arguments, DuplicateTypeError for a known one; success adds exactly that one entry and leaves the others alone |
| ConfigWindow.RegisterKeepsDistinct | utils/configwindow.py:339-352 | registration never maps one type name twice |
| ConfigWindow.CheckRequired | utils/configwindow.py:224-244 | a non-iterable non-str value is a TypeError; a list or tuple is checked element by element; a str is checked per character and then whole |
| ConfigWindow.NewObject | utils/configwindow.py:206-248 | AttributeError without a type, NoConstructorError for an unregistered one; a built object comes from the registered class, called on the descriptor without "type", after the required keys passed |
| ConfigWindow.NewObjectTupleKeys | utils/configwindow.py:224-248 | with a tuple of names, building succeeds iff every name is a key left after removing "type", and the object is built from that remainder |
| ConfigWindow.StrRequiredKeysChecksCharacters | utils/configwindow.py:236-244 | a str `__required_keys__` demands its first character as a key too |
| ConfigWindow.Generate | utils/configwindow.py:250-261 | succeeds iff every general type and subsystem is a dict and every item builds (any builder error aborts); the total equals the number of items; the attributes set are exactly the `general_type_subsystem` names; each holds the built items of the last pair naming it |
| ConfigWindow.BuildFromValue | utils/configwindow.py:253-254 | an item builds only when it is a dict, and then as `new_hardware_object` builds it |
| HardwareManager.Register | utils/hardwaremanager.py:106-147 | NoTypeFoundError, TypeError and DuplicateTypeError as in the other registry, with no argument check; success adds exactly one entry |
| HardwareManager.RegisterAll | utils/hardwaremanager.py:106-147 | a successful run of class definitions registers every class's type, keeps the earlier ones, and grows the registry by one per class |
| HardwareManager.RegisterAllMaps | utils/hardwaremanager.py:136-147 | after a successful run every class's type maps to that class |
| HardwareManager.RegisterAllKeeps | utils/hardwaremanager.py:136-147 | later registrations never replace an earlier type's class |
| HardwareManager.RegisterStep | utils/hardwaremanager.py:136-147 | a successful run's first registration succeeded and kept every earlier entry |
| HardwareManager.NewObject | utils/hardwaremanager.py:57-96 | AttributeError without a type, NoConstructorError for an unregistered one, TypeError for a non-tuple `__required_keys__`; with a tuple, success iff all keys present; the object is built from the descriptor without "type" |
| HardwareManager.NewObjectReportsFirstMissing | utils/hardwaremanager.py:87-93 | the first required key, in tuple order, absent from the descriptor is the one reported |
| HardwareManager.FirstMissing | utils/hardwaremanager.py:87-93 | the key loop stops at the first absent key |
| HardwareManager.RegisterAllOk | utils/hardwaremanager.py:116-147 | registration succeeds whenever the types are str, new and pairwise different |
| HardwareManager.ClassesRegister | utils/hardwaremanager.py:150-569 | importing the module registers all nine classes, each under its own type |
| HardwareManager.RequiredKeysByType | utils/hardwaremanager.py:150-569 | "channel" alone for the Talons, solenoids, digital input and Xbox controller; "channel" and "motorType" for the SparkMax; "method" for the NavX; nothing for the compressor |
| SparkMax.Field | utils/hardwaremanager.py:359-381 | `desc[key]` succeeds iff the key is present |
| SparkMax.PidSetup | utils/hardwaremanager.py:383-398 | PID set-up succeeds iff "controlType" names a `rev.ControlType` member and every other PID key is present; an unknown name is an AttributeError |
| SparkMax.Build | utils/hardwaremanager.py:354-424 | construction succeeds iff "channel" is present, "motorType" names a `rev.MotorType` member, a follower has "masterChannel" and "inverted", "pid" sets up and current limits are complete; a missing channel is a KeyError; a follower follows whatever is stored under `str(masterChannel)` |
| SparkMax.Create | utils/hardwaremanager.py:354-381 | as written: succeeds iff the motor builds and its channel is hashable, stores it under the raw channel, and changes no other entry |
| SparkMax.CreateFixed | utils/hardwaremanager.py:354-381 | corrected: succeeds iff the motor builds, and stores it under `str(channel)`, the key followers look up, changing no other entry |
| SparkMax.IntChannelMasterNotFound | utils/hardwaremanager.py:366-381 | with integer channels a follower built after its master still follows None |
| SparkMax.FixedFollowerFindsMaster | utils/hardwaremanager.py:366-381 | with the corrected key the follower follows its master |
| SparkMax.SetupPid | utils/hardwaremanager.py:383-390 | PID setup leaves the motor not coasting with the enum member named by "controlType" |
| SparkMax.SetPid | utils/hardwaremanager.py:437-470 | a zero speed with coast starts coasting (once); anything else stops it and, if it was coasting, restores the bare `init_control_type` string; the reference sent is speed times kPreScale |
| SparkMax.CoastIdempotent | utils/hardwaremanager.py:443-446 | a second coasting `set` changes nothing |
| SparkMax.StopCoastLosesMember | utils/hardwaremanager.py:456-457 | after a coast, driving again leaves a bare string where the enum member was |
| SparkMax.SetPidFixed | utils/hardwaremanager.py:450-458 | corrected: stopping a coast restores the enum member |
| SparkMax.CoastThenDriveRestores | utils/hardwaremanager.py:383-470 | with the correction, coasting and then driving returns to the state PID setup left |
| Motors.Register | utils/motors.py:32-38 | AttributeError when the class has no `__type__` and TypeError when it is unhashable, and only then an error; otherwise the type maps to the class, every other type is untouched, and the key set grows only for a new type |
| Motors.RegisterLastWins | utils/motors.py:38 | a second class with the same type leaves the registry as if only the second had registered |
| Motors.Import | utils/motors.py:53-101 | the import succeeds iff all three classes declare a hashable type; an unhashable one is a TypeError |
| Motors.ImportRegisters | utils/motors.py:53-101 | with distinct types, exactly three entries mapping each type to TalonSRX, TalonFX and SparkMax |
| Motors.ImportClashLaterWins | utils/motors.py:38 | two classes sharing a type leave two entries, the later class winning |
| Motors.CreateMotor | utils/motors.py:12-27 | KeyError without "type", AttributeError for an unregistered one; the motor gets the descriptor with "type" still in it; PID set-up happens iff "pid" is present and comes first, current limits iff "currentLimits" is present |
| TmpMotors.AcceptSubclass | tmp/motors/__init__.py:6-13 | accepted iff the class has at least two direct bases, AttributeError otherwise, nothing recorded |
| TmpMotors.OnlyCountMatters | tmp/motors/__init__.py:7-8 | two classes with the same number of direct bases get the same verdict |
| MotorHelper.Add | factories/motorHelper.py:442-443 | `add` makes the name map to the item and leaves every other name alone |
| MotorHelper.Get | factories/motorHelper.py:445-446 | `get` succeeds iff the name was added, else KeyError naming it |
| MotorHelper.GetAttr | factories/motorHelper.py:436-452 | attribute access follows Python's lookup order: `__dict__`, `__weakref__` and `__class__` always come from the class even when added as items; otherwise an added item wins, then the methods `add`, `get` and the other class and `object` attributes; any other name reaches `__getattr__` and is a KeyError (not AttributeError) exactly when `get` is one too |
| MotorHelper.GetAttrAgreesWithGet | factories/motorHelper.py:445-449 | for a name that is not a class attribute, attribute access and `get` give the same item or the same KeyError |
| MotorHelper.AddThenGet | factories/motorHelper.py:436-449 | after `add`, `get` returns the item, and so does attribute access unless the name is a data descriptor such as `__dict__`; the last `add` of a name wins |
| MotorHelper.GetUnknown | factories/motorHelper.py:436-449 | a name never added raises KeyError from `get`, and from attribute access exactly when it is not a class attribute |
| MotorHelper.AddAll | factories/motorHelper.py:466-474 | a run of distinct `add`s makes each name resolve to its item and leaves other names alone |
| MotorHelper.AddAllFromEmpty | factories/motorHelper.py:466-474 | from an empty mapping, exactly the added names resolve |
| MotorHelper.RegistrationNames | factories/motorHelper.py:466-474 | the nine registered names are distinct and do not include "__bases__" |
| MotorHelper.HardwareComponentsRegistered | factories/motorHelper.py:466-474 | `HardwareComponents` resolves each of the nine names to its constructor and has no "__bases__" |
| MotorHelper.PopRequiredType | factories/motorHelper.py:575 | `desc.pop("type")` without a default raises KeyError when absent |
| MotorHelper.Resolve | factories/motorHelper.py:576-579 | the constructor is found only for a registered str type; an unhashable type is a TypeError, any other miss a KeyError |
| MotorHelper.NewHardwareObject | factories/motorHelper.py:557-580 | as written: KeyError "__bases__" whenever the mapping lacks that entry; any success agrees with the corrected builder |
| MotorHelper.NewHardwareObjectFixed | factories/motorHelper.py:575-580 | corrected: KeyError without "type"; success iff the type is a registered str; the constructor gets no arguments for an emptied descriptor, else the descriptor without "type" |
| MotorHelper.HardwareComponentsGuardFails | factories/motorHelper.py:571-574 | with `HardwareComponents` every item fails with KeyError "__bases__" |
| MotorHelper.FixedBuildsRegistered | factories/motorHelper.py:466-480 | without the guard every registered type builds its registered constructor |
| Actuator.KindOf | factories/actuator.py:13-20 | a type name selects a branch exactly when it is one of `VALID_MOTOR_TYPES`, and the branch carries that name |
| Actuator.MotorTypeMember | factories/actuator.py:429 | `getattr(rev.MotorType, ...)` succeeds iff "motorType" is the str "kBrushed" or "kBrushless" |
| Actuator.Limits | factories/actuator.py:128-190 | a current-limit setter succeeds iff the descriptor has no "currentLimits" or that entry holds every key its family reads |
| Actuator.PidReads | factories/actuator.py:202-231 | the PID set-up succeeds iff `desc['pid']` holds every key it reads |
| Actuator.SrxMotor | factories/actuator.py:401-407 | a CANTalonSRX builds iff it has a channel, a complete "pid" when one is set and complete current limits; it leads, on that channel |
| Actuator.TalonFollower | factories/actuator.py:409-426 | a Talon follower builds iff it has a channel, a master channel and complete current limits, and follows the raw master channel |
| Actuator.FxMotor | factories/actuator.py:240-256 | as written a CANTalonFX with "pid" and a channel fails with AttributeError on `self.motorDescription`; corrected, it builds iff it has a channel, a complete "pid" and complete current limits |
| Actuator.SparkMotor | factories/actuator.py:296-305 | as written a SparkMax with "pid" and a valid motor type fails with AttributeError; corrected, it builds iff the motor type resolves and it has a channel, "inverted" and a complete "pid" when set, and complete limits |
| Actuator.SparkFollower | factories/actuator.py:441-445 | as written a SparkMax follower with a valid motor type always fails with AttributeError; corrected, it follows what the registry holds under `str(masterChannel)` |
| Actuator.BuildMotor | factories/actuator.py:193-445 | a motor builds iff its descriptor meets its type's needs and, as written, avoids the branches reading the unset attribute; a built motor has the type's kind and the descriptor's channel, leaders follow nothing and followers follow what their branch names |
| Actuator.FixedAgreesWhereWrittenBuilds | factories/actuator.py:240-445 | where the code as written builds a motor, the corrected code builds the same one |
| Actuator.SparkMaxFollowerNeverBuilds | factories/actuator.py:296-303 | as written a SparkMax follower whose motor type resolves fails with AttributeError |
| Actuator.PidMotorNeverBuilds | factories/actuator.py:245-303 | as written a SparkMax or CANTalonFX with "pid" fails with AttributeError |
| Actuator.BuildMotorIgnoresRegistry | factories/actuator.py:401-445 | the shared registry never decides whether a motor builds, and matters only to a SparkMax follower |
| Actuator.MakeMotor | factories/actuator.py:116-445 | a type outside `VALID_MOTOR_TYPES` is a ValueError; a valid type succeeds iff its branch builds; CANTalonSRX, CANTalonSRXFollower, CANTalonFXFollower and SparkMax store the motor under `str(channel)`; CANTalonFX and SparkMaxFollower leave the registry alone |
| Actuator.GenerateMotor | factories/actuator.py:116-445 | as written: the factory fails exactly when building fails, and its item is always None, only the registry changing |
| Actuator.GenerateMotorFixed | factories/actuator.py:116-445 | corrected: the built motor of the descriptor's type is returned |
| Actuator.MotorOutcomeIgnoresRegistry | factories/actuator.py:116-445 | success and every error are independent of the registry's contents |
| Actuator.MotorItemIsNone | factories/actuator.py:116-445 | every motor descriptor the code as written accepts gives None as written and the same motor once corrected |
| Actuator.MotorsAfter | factories/actuator.py:116 | the shared default dict only grows across calls |
| Actuator.FollowerOfTalonFXFindsNothing | factories/actuator.py:415-444 | corrected: a SparkMax follower of a CANTalonFX leader follows None |
| Actuator.FollowerOfSparkMaxFindsIt | factories/actuator.py:428-444 | corrected: a SparkMax follower of a SparkMax leader follows that leader |
| Actuator.GenerateBreaksensor | factories/actuator.py:447-460 | a digital input exactly for type "RIODigitalIn" with a channel, None otherwise |
| Actuator.GenerateGyro | factories/actuator.py:462-481 | a navx exactly for type "navx" with method "spi" or "i2c", None otherwise |
| Actuator.PcmAsWritten | factories/actuator.py:489-491 | as written: for a dict descriptor the module is always 0 |
| Actuator.PcmFixed | factories/actuator.py:489-491 | corrected: the descriptor's "pcm" when present, 0 otherwise |
| Actuator.DefaultValue | factories/actuator.py:499-503 | "kOff", "kForward" and "kReverse" map to 0, 1 and 2; anything else fails |
| Actuator.SolenoidWith | factories/actuator.py:483-505 | a built solenoid of either kind was asked for by its type and carries the module found |
| Actuator.DoubleParts | factories/actuator.py:494-503 | a double solenoid reads "forward" and "reverse" from its "channel", and has an initial value exactly when the descriptor has a "default", which must be kOff, kForward or kReverse |
| Actuator.GenerateSolenoid | factories/actuator.py:483-511 | as written: every built solenoid is on module 0 |
| Actuator.GenerateSolenoidFixed | factories/actuator.py:483-511 | corrected: a built solenoid is on the descriptor's module, 0 by default |
| Actuator.SolenoidIgnoresPcm | factories/actuator.py:489-493 | example: a solenoid naming module 3 (any non-zero) still gets module 0 as written and its own once corrected |
| Actuator.SolenoidDiffersOnlyInModule | factories/actuator.py:483-508 | for every dict descriptor the written and corrected solenoid factories build a device for the same descriptors, and the same device up to its module, which the corrected one takes from "pcm" (0 when absent) |
| Actuator.GenerateCompressor | factories/actuator.py:513-525 | a compressor exactly for type "compressor", None otherwise |
| Actuator.Generator | factories/actuator.py:33-39 | a factory exists exactly for the five group names; any other is a KeyError naming it |
| Actuator.SplitControllers | factories/actuator.py:44-50 | "controllers" is taken out when present and every other entry stays; when absent the configuration is unchanged |
| Actuator.Generate | factories/actuator.py:41-65 | outside "controllers": succeeds iff every subsystem is a dict and every group has a generator, is a dict and has every item generate; the total is the number of items; the attributes set are exactly the `group_subsystem` names, each holding the generated items of the last pair naming it |
| Actuator.UnknownGroupFails | factories/actuator.py:57 | a group name without a generator stops the walk with KeyError |
| HardwareMap.NewObject | utils/hardware/hardware_manager.py:18-27 | KeyError without "type" or for an unmapped one; a built object comes from the mapped constructor of the module, with no arguments for an emptied descriptor |
| HardwareMap.BuildFromValue | utils/hardware/hardware_manager.py:31-33 | an item builds only when it is a dict |
| HardwareMap.UnpackKey | utils/hardware/hardware_manager.py:29 | unpacking a key string into two names fails with ValueError unless it has exactly two characters |
| HardwareMap.GenerateAsWritten | utils/hardware/hardware_manager.py:29-35 | as written, once both files are loaded: the walk succeeds only on an empty configuration; the first top-level entry raises ValueError, or AttributeError for a two-character key (the loads before it never succeed; see `HardwareMap.GenerateHardwareObjects`) |
| HardwareMap.GenerateHardwareObjects | utils/hardware/hardware_manager.py:4-35 | every call fails, with the error `FileManager.load` gives for the hardware map: it is read first (line 16) and that loader never returns a value; a map path without exactly one dot gives ValueError |
| HardwareMap.DefaultMapFails | utils/hardware/hardware_manager.py:4-16 | with the default ".hardware.map.json" the call always ends with ValueError, whatever the configuration file |
| HardwareMap.GroupAsWritten | utils/hardware/hardware_manager.py:30-35 | even a group that builds fails, with TypeError from the value-less `setattr` |
| HardwareMap.Generate | utils/hardware/hardware_manager.py:29-35 | corrected: succeeds iff every value two levels down is a dict whose items all build; the total is the number of items; the attributes set are exactly the `general_type_subsystem` names, each holding the built items of the last pair naming it |
| HardwareMap.AsWrittenSetsNothing | utils/hardware/hardware_manager.py:29-35 | whenever the corrected walk sets an attribute, the written walk has failed |
| ConfigManager.MakePaths | utils/configmanager.py:17-25 | `CONFIGS` is cwd/config/, `ROBOT_CONFIGS` adds one more separator, `DEFAULT` is `ROBOT_CONFIGS` + "doof" + separator |
| ConfigManager.RobotConfigsDoubleSeparator | utils/configmanager.py:17-18 | `ROBOT_CONFIGS` ends in two separators |
| ConfigManager.ChooseRobot | utils/configmanager.py:32-40 | a missing or empty robot name gives "doof" and `DEFAULT`; any other name gives itself and `ROBOT_CONFIGS` + name + separator |
| ConfigManager.DefaultIsDoof | utils/configmanager.py:32-40 | falling back is the same as asking for "doof" |
| ConfigManager.HardwarePath | utils/configmanager.py:42 | the hardware file is the directory followed by ".config.hardware.json" |
| ConfigManager.BuildFromValue | utils/configmanager.py:63 | an item builds only when it is a dict, and then as `HardwareObject` builds it |
| ConfigManager.GenerateHardware | utils/configmanager.py:55-65 | succeeds iff every general type and subsystem is a dict and every item builds, so any builder error aborts the walk; the total is the number of items; the injectables set are exactly the `general_type_subsystem` names, each holding the built items of the last pair naming it |
| ConfigManager.Initialize | utils/configmanager.py:29-53 | for any loader: a finished start-up recorded the chosen name, loaded that robot's hardware file and holds what the walk built from it; a failed load fails the start-up (with the module's own loader see `ConfigManager.FileManagerLoadFails`) |
| ConfigManager.FileLoad | utils/configmanager.py:14-44 | the module's `load` is `FileManager.load`, and its error is passed on unchanged |
| ConfigManager.FileManagerLoadFails | utils/configmanager.py:14-44 | with `FileManager.load` the start-up always fails with ValueError: every hardware path ends in ".config.hardware.json", which holds more than one dot |
| ConfigManager.NamedRobotHardwarePath | utils/configmanager.py:17-42 | a named robot's hardware file is cwd/config//robot/.config.hardware.json |
| FactoryWalk.FactoryFor | utils/newInitializer.py:53-55 | KeyError for a group missing from the factory data; a factory is attribute "func" of the module imported from "file" |
| FactoryWalk.CreateFactoryObjects | utils/newInitializer.py:42-63 | succeeds iff the subsystems are a dict and every group's factory resolves, is a dict and has every item build; None, a bool or a number fails with TypeError at the log line's `len(subsystems)`, and a str, list or tuple with AttributeError at `.items()`; the total is the sum of the group sizes; the attributes set are exactly the `group_subsystem` names, each holding the built items of the last pair naming it |
| Values.Len | utils/newInitializer.py:49 | `len` succeeds exactly for a str, list, tuple or dict, and gives its length |
| FactoryWalk.UnknownGroupFails | utils/newInitializer.py:53 | a group without factory data stops the walk with KeyError naming it |
| FactoryWalk.Controllers | utils/newInitializer.py:65-111 | one controller per name of a dict of ports; anything else is an AttributeError |
| NewInitializer.Initialize | utils/newInitializer.py:27-40 | any failure loading the file becomes TypeError; a finished start-up had 'compatibility', 'controllers' and 'subsystems' (a missing 'compatibility' is KeyError), keeps the file's compatibility, built exactly as many items as the subsystems hold, its injectables are exactly what the factory walk builds from the subsystems and "factories.json", and its controllers are what the controller walk builds |
| NewInitializer.FirstMissingSectionReported | utils/newInitializer.py:34-36 | the sections are read in order, so a file with only 'compatibility' fails on 'controllers' |
| Compat.Compatible | utils/robotInitializer.py:167-173 | the test needs an iterable `compatString` of hashable elements; the robot's name among its elements makes it compatible; otherwise only "all" (in the `compatString`, or as the robot's name) can |
| Compat.CompatibleForNameLists | utils/robotInitializer.py:167-173 | for a list of names: compatible iff the robot is listed, "all" is listed, or the robot is "all" |
| Compat.StrCompatStringIsLetters | utils/robotInitializer.py:170 | a str `compatString` is a set of letters to the intersection, so "doof" does not match the robot "doof" |
| Compat.StrCompatStringSubstring | utils/robotInitializer.py:171 | a str `compatString` containing "all" matches every robot |
| Compat.WallabyContainsAll | utils/robotInitializer.py:171 | "wallaby" is such a string |
| Compat.Unwrap | utils/robotInitializer.py:196-199 | a generic annotation is replaced by its `__origin__`, anything else is kept |
| Compat.StandInOne | utils/robotInitializer.py:186-213 | private names and names set on the class are skipped; a non-type annotation is a TypeError (a module too, where modules are not accepted); a stand-in is added only for a name the robot lacks, and nothing the robot had changes |
| Compat.StandIns | utils/robotInitializer.py:186-213 | after the loop every eligible name is on the robot, nothing earlier changed, and nothing else was added |
| Compat.Disable | utils/robotInitializer.py:215-218 | the three hooks are replaced and nothing else about the class changes |
| Compat.Settle | utils/robotInitializer.py:170-218 | a compatible component is untouched; an incompatible one gets its stand-ins and is disabled |
| Compat.SettleKeepsRobot | utils/robotInitializer.py:210-213 | settling never overwrites an attribute the robot already had |
| Compat.CheckComponent | utils/robotInitializer.py:155-218 | no `compatString`: untouched and not disabled; otherwise the test decides, an incompatible component being disabled with its stand-ins |
| Compat.CreateComponents | utils/robotInitializer.py:139-153 | the disabled names are exactly the examined annotations with a `compatString` the test rejects; earlier robot attributes are kept |
| RobotInitializer.Examine | utils/robotInitializer.py:146-152 | a class or module is examined iff its name is not a builtin type's; any other annotation has no `__name__` (AttributeError) |
| RobotInitializer.FindConfig | utils/robotInitializer.py:38-54 | without a marker file the setup default is used; a marker line of whitespace only has no detected encoding and fails with AttributeError (exactly then); otherwise the name splits the line as whitespace + name + whitespace, is non-empty and neither starts nor ends with whitespace (the strip is maximal) |
| RobotInitializer.WithAttrs | utils/robotInitializer.py:83-136 | names set before the components are created count as robot attributes, others unchanged |
| RobotInitializer.Setup | utils/robotInitializer.py:32-65 | a finished start-up read 'default' and 'controllers' from setup.json, found a name for the configuration, loaded it with its 'subsystems' and 'compatibility', and disabled exactly the examined components the compatibility rejects; a blank marker line always fails, with AttributeError once setup.json was read |
| RobotInitializer.Configure | utils/robotInitializer.py:56-65 | a finished start-up loaded the named configuration with its 'subsystems' and 'compatibility', every annotation was examinable, and the disabled names are exactly those rejected |
| RobotInitializer.Finish | utils/robotInitializer.py:63-65 | the robot keeps every injected attribute and "controllers", and the disabled names are exactly the examined components the compatibility rejects |
| RobotInitializer.Initialize | utils/robotInitializer.py:32-153 | with the builtin-name filter: a blank marker line fails; on success every annotation was examinable and the disabled names are exactly those rejected |
| RobotInitializer.BuiltinsNeverDisabled | utils/robotInitializer.py:146-153 | an annotation whose class is a builtin type is never disabled |
| RobotInitializer.ListedOrAllIsCompatible | utils/robotInitializer.py:161-173 | a component with a list `compatString` is disabled iff the robot is not listed, "all" is not listed and the robot is not "all" |
| ReworkedConfig.IsClass | utils/reworkedConfig.py:151 | `isclass` never fails and holds only for a class |
| ReworkedConfig.Initialize | utils/reworkedConfig.py:74-152 | a blank marker line fails (reworkedConfig.py:86-87); on success the disabled names are exactly the class annotations whose `compatString` the compatibility rejects |
| ReworkedConfig.FiltersDiffer | utils/reworkedConfig.py:149-152 | modules and builtin classes are examined by exactly one of the two revisions, and a generic annotation stops only the other one |
| ComponentUtils.TestCompatibility | utils/componentUtils.py:8-53 | untouched without a `compatString` or when the mapper accepts it; the mapper's error is passed on; when it rejects, the step succeeds exactly when the stand-ins can be made (modules not accepted), and then the component is disabled and the robot holds exactly those stand-ins; earlier robot attributes are kept |
| ComponentUtils.ModuleAnnotationRejected | utils/componentUtils.py:37-42 | a module annotation is a TypeError here even where the robot already has the attribute, unlike the earlier revisions |
| ComponentUtils.OnlyTheCheckMatters | utils/componentUtils.py:19-20 | two mappers that agree on the `compatString` treat the component identically |
| RobotUtil.Keep | utils/robotutil.py:42-64 | a missing or falsy `robot` list is an AttributeError naming the component; otherwise, for a non-empty list, kept iff the key or "all" is listed |
| RobotUtil.Scan | utils/robotutil.py:42-64 | a finished scan could test every component, and its bad names are exactly the components not kept, in annotation order |
| RobotUtil.RemoveAll | utils/robotutil.py:66-68 | every bad name is deleted and every other entry stays |
| RobotUtil.CleanupComponents | utils/robotutil.py:26-68 | as written: fails iff the scan does, with the scan's error; otherwise the class keeps every annotated component, because the deletions touch only the fresh dict `get_type_hints` returned |
| RobotUtil.CleanupComponentsFixed | utils/robotutil.py:39-68 | corrected: succeeds iff the whole scan does, so nothing is deleted unless every component could be tested; a component stays on the class iff it is kept, and no name is added |
| RobotUtil.RemoveAllShrinks | utils/robotutil.py:66-68 | deleting names never adds one |
| RobotUtil.CleanupKeepsIncompatible | utils/robotutil.py:39-68 | a component listed only for another robot is still on the class after the clean-up as written, and gone after the corrected one |
| RobotUtil.KeptIffNotBad | utils/robotutil.py:61-68 | a name survives the deletions iff its component is kept |
| RobotUtil.KeptOne | utils/robotutil.py:61-68 | the same for one component |
| RobotUtil.KeptIffListed | utils/robotutil.py:61 | for a non-empty list of names: kept iff the key or "all" is listed |
| RobotUtil.EmptyRobotListFails | utils/robotutil.py:44-60 | an empty `robot` list is an AttributeError, not a permission |
| ConfigUtil.RemoveFirst | utils/configutil.py:32-33 | `list.remove` deletes the first equal element, ValueError when there is none |
| ConfigUtil.ParseRobotArgs | utils/configutil.py:26-33 | without "--config" nothing changes; a trailing flag is an IndexError; otherwise the next token is the configuration and the remaining arguments are exactly the original ones with the flag deleted and the first token equal to the name deleted: the name after the flag when it does not occur earlier, else its earliest occurrence |
| ConfigUtil.RemovesEarlierName | utils/configutil.py:32-33 | when the name also occurs before the flag, `remove` deletes that earliest occurrence and keeps everything else in order |
| ConfigUtil.RemovesEarlierToken | utils/configutil.py:32-33 | example: an earlier token equal to the name is the one removed, and the name after the flag stays |
| ConfigUtil.ChooseConfig | utils/configutil.py:59-66 | a non-empty command-line configuration wins, otherwise the default |
| ConfigUtil.RobotName | utils/configutil.py:71 | the robot name is the longest prefix without '.', the whole name when there is none |
| ConfigUtil.Cleanup | utils/configutil.py:88-135 | as written: the clean-up succeeds iff its scan does and leaves the class's annotations as they were; with a name set it is the shared clean-up |
| ConfigUtil.CleanupFixed | utils/configutil.py:88-135 | corrected: succeeds iff its scan does; with a name set it is the shared corrected clean-up |
| ConfigUtil.InitializeAsWritten | utils/configutil.py:54-71 | as written: start-up can succeed only for a robot with no annotated components |
| ConfigUtil.AsWrittenFailsWithComponents | utils/configutil.py:68-71 | any annotated component makes the start-up fail |
| ConfigUtil.AsWrittenReadsUnsetName | utils/configutil.py:68-128 | a listed first component fails on the unset `robot_name` |
| ConfigUtil.Initialize | utils/configutil.py:54-71 | corrected: no configuration at all fails; the robot name is the chosen configuration before its first '.', and the components are those the corrected clean-up keeps for it |
| ConfigUtil.FixedSucceedsWhereAsWrittenFails | utils/configutil.py:68-71 | a component listed for the robot is kept by the corrected start-up, while the written one fails |
| JsonConfigMapper.IndexBy | utils/jsonConfigMapper.py:77 | indexing the loaded file by a loaded value finds only string keys; any other key fails |
| JsonConfigMapper.UpdateFrom | utils/jsonConfigMapper.py:55-61 | `dict.update` copies a dict's fields; a str iterates as characters, so only "" passes (as an empty dict) and any other is a ValueError; a list or tuple is taken as a sequence of pairs and passes exactly when every element is a pair; None, a bool or a number is a TypeError |
| JsonConfigMapper.UpdatePair | utils/jsonConfigMapper.py:55-61 | an element is accepted exactly when it is a pair: ValueError for a sequence of another length, TypeError for a non-sequence or an unhashable key; a two-character str stores its second character under its first, a dict with two keys stores its second key under its first |
| JsonConfigMapper.PairOf | utils/jsonConfigMapper.py:55-61 | a list or tuple element is accepted exactly when it has two items and a str key; ValueError for another length, TypeError otherwise |
| JsonConfigMapper.UpdatePairs | utils/jsonConfigMapper.py:55-61 | the update succeeds iff every element is a pair, otherwise it fails with the first bad element's error; the keys are the earlier ones plus one per pair, unnamed keys keep their values, and the last pair naming a key decides its value |
| JsonConfigMapper.EmptyListConfigFailsLater | utils/jsonConfigMapper.py:42-90 | a chosen configuration that is an empty list passes the update and then fails reading 'compatibility' with TypeError |
| JsonConfigMapper.RobotConfigs | utils/jsonConfigMapper.py:44-50 | the robot configurations are exactly the top-level keys whose value contains 'compatibility'; a value that cannot answer `in` is an error |
| JsonConfigMapper.CopySubconfigs | utils/jsonConfigMapper.py:74-77 | every listed subconfig is copied from the file, every other key is untouched, and an unknown name fails |
| JsonConfigMapper.GetConfig | utils/jsonConfigMapper.py:36-83 | no request picks 'default'; a request not among the robot configurations is an AttributeError; the chosen name's 'compatibility' is copied into the result |
| JsonConfigMapper.ExtractSubsystems | utils/jsonConfigMapper.py:85-96 | every dict entry holding 'subsystem' is indexed under that value, and earlier names stay |
| JsonConfigMapper.LaterSubsystemWins | utils/jsonConfigMapper.py:90-94 | of two entries naming the same subsystem the later one is kept |
| JsonConfigMapper.ExtractSubsystemsOk | utils/jsonConfigMapper.py:85-96 | the extraction succeeds iff every entry supports `'subsystem' in data` and every dict's 'subsystem' value is hashable |
| JsonConfigMapper.ExtractSubsystemsContents | utils/jsonConfigMapper.py:85-96 | each subsystem name maps to the last entry naming it, and every key no entry names keeps its earlier value, so from an empty dict no other key appears |
| JsonConfigMapper.ExtractStep | utils/jsonConfigMapper.py:88-94 | the contents facts for the remaining entries and the first entry's store give the contents facts for all entries |
| JsonConfigMapper.NewMapper | utils/jsonConfigMapper.py:21-28 | the mapper records the chosen configuration's name and its 'compatibility' |
| JsonConfigMapper.GetSubsystem | utils/jsonConfigMapper.py:125-132 | a known subsystem is returned, an unknown one is an AttributeError, and an unhashable name is a TypeError from the `in` test |
| JsonConfigMapper.GetGroupDict | utils/jsonConfigMapper.py:97-149 | as written: an unhashable name is a TypeError and an unknown one an AttributeError; a result comes from a known subsystem, has distinct keys and no 'groups' key, and for a dict subsystem equals the corrected search's result |
| JsonConfigMapper.GetGroupDictFixed | utils/jsonConfigMapper.py:97-149 | corrected: the same errors; a dict subsystem none of whose visited entries names the group gives an empty dict |
| JsonConfigMapper.LowerAll | utils/jsonConfigMapper.py:156 | every element of the compatibility list is lowered, position by position; a non-string fails |
| JsonConfigMapper.LowerEach | utils/jsonConfigMapper.py:156 | succeeds iff every element is a string, and then lowers each one |
| JsonConfigMapper.CheckCompatibility | utils/jsonConfigMapper.py:151-163 | true iff the configuration's compatibility is "all", or "all" or that compatibility is among the lowered names |
| JsonConfigMapper.UppercaseCompatibilityNeverMatches | utils/jsonConfigMapper.py:156-163 | a capitalised configuration compatibility matches no list without "all", because only the list is lowered |
| JsonConfigMapper.LowerIsNotCapitalised | utils/jsonConfigMapper.py:156 | no lowered text equals a capitalised name |
| JsonConfigMapper.FindConfigAsWritten | utils/jsonConfigMapper.py:165-229 | as written: an unreadable marker is None or FileNotFoundError by `strict`; an empty text is an AttributeError with the encoding (no encoding is detected), and otherwise a SyntaxError when strict and a TypeError when not; a success is a non-empty lower-case name |
| JsonConfigMapper.CleanText | utils/jsonConfigMapper.py:194-208 | without the encoding the text holds only the letters a to z |
| JsonConfigMapper.KeepLetters | utils/jsonConfigMapper.py:199-208 | the kept characters are lower-case letters, no more than the input, and an all-lower-case-letter line is kept whole |
| JsonConfigMapper.Checked | utils/jsonConfigMapper.py:219-229 | a non-letter anywhere is a SyntaxError, iff; otherwise the lowered text |
| JsonConfigMapper.NoSpecialCharactersWithoutEncoding | utils/jsonConfigMapper.py:198-223 | without the encoding a non-empty text always passes the character test |
| JsonConfigMapper.FindConfig | utils/jsonConfigMapper.py:194-213 | corrected: an empty text gives None when not strict and a SyntaxError when strict, with or without the encoding; every other case is as written |
| JsonConfigMapper.EmptyMarkerNotStrict | utils/jsonConfigMapper.py:194-219 | on an empty marker the written code always fails, with AttributeError when the encoding is used; the corrected one gives None when not strict and a SyntaxError when strict |
| GroupDicts.InGroups | utils/jsonConfigMapper.py:115-116 | the group test asks the entry's 'groups' for the name; a non-dict entry is a TypeError |
| GroupDicts.Merge | utils/jsonConfigMapper.py:117 | merging a dict entry is `dict.update`, which keeps keys distinct |
| GroupDicts.Collect | utils/jsonConfigMapper.py:98-123 | as written: a successful search yields a dict with distinct keys and no 'groups' key |
| GroupDicts.Loop | utils/jsonConfigMapper.py:109-121 | the loop keeps keys distinct and removes 'groups' after each entry |
| GroupDicts.CollectFixed | utils/jsonConfigMapper.py:98-123 | corrected, asking only dict entries for 'groups': the result has distinct keys and, for a non-empty subsystem, no 'groups'; which keys it holds is stated both ways by `GroupDicts.FixedKeepsSelectedFields` and `GroupDicts.FixedOnlySelectedFields` |
| GroupDicts.LoopFixed | utils/jsonConfigMapper.py:109-121 | the corrected loop keeps every earlier key other than 'groups' |
| GroupDicts.FixedKeepsSelectedFields | utils/jsonConfigMapper.py:115-121 | every field except 'groups' of an entry that names the group reaches the result |
| GroupDicts.SelectedFieldReached | utils/jsonConfigMapper.py:109-121 | the same, from any point of the loop before that entry |
| GroupDicts.FixedOnlySelectedFields | utils/jsonConfigMapper.py:109-123 | conversely, every key of the result is a field of an entry that names the group, found directly or by the nested search below a subsystem without 'groups', and never 'groups' itself: an entry outside the group contributes nothing |
| GroupDicts.LoopFixedOnly | utils/jsonConfigMapper.py:109-121 | from any point of the loop, a key of the result was already gathered or is added by a later entry that names the group or by the nested search below it |
| GroupDicts.ItemAt | utils/jsonConfigMapper.py:109-115 | `subsystem[key]` on a list subsystem: an int or bool index within range, negative from the end, gives an element; any other key fails |
| GroupDicts.ItemsLoop | utils/jsonConfigMapper.py:109-121 | the search over a list or tuple subsystem keeps keys distinct and removes 'groups' after each element |
| GroupDicts.SubsystemDicts | utils/jsonConfigMapper.py:97-123 | a dict subsystem is searched; an empty str, list or tuple gives an empty dict; a non-empty str, None, a bool or a number is a TypeError |
| GroupDicts.WrittenAgreesWithFixed | utils/jsonConfigMapper.py:98-123 | wherever the search as written succeeds, the corrected search gives the same dict |
| GroupDicts.LoopAgrees | utils/jsonConfigMapper.py:109-121 | the same for the loop from any position |
| GroupDicts.FixedNoneSelectedIsEmpty | utils/jsonConfigMapper.py:98-123 | when no visited entry names the group the result is empty |
| GroupDicts.NoneSelectedLoop | utils/jsonConfigMapper.py:109-121 | the same for the loop from any position |
| GroupDicts.NumericFieldFails | utils/jsonConfigMapper.py:109-115 | as written, an entry with a numeric field fails, because `'groups' in 1` is asked |
| GroupDicts.FixedSelectsGroupEntry | utils/jsonConfigMapper.py:115-121 | corrected, that entry is selected by its group and returned without 'groups' |
| GroupDicts.FixedSkipsOtherGroups | utils/jsonConfigMapper.py:115-116 | an entry of another group contributes nothing |
| ConfigMapper.Store | utils/configMapper.py:48-51 | a declared subsystem is stored under its name, and every other name keeps its entry |
| ConfigMapper.DeclaredName | utils/configMapper.py:48-50 | `'subsystem' in data` is asked of any value; only a dict entry declares a name, its 'subsystem' value; an unhashable name fails |
| ConfigMapper.Extract | utils/configMapper.py:42-61 | the document keeps its keys, earlier subsystems stay, and every declared subsystem is indexed |
| ConfigMapper.ExtractPlain | utils/configMapper.py:42-61 | for a document that includes no file: success iff every entry answers `'subsystem' in data` and `'file' in data` and every declared name is hashable; the document is unchanged; each declared subsystem maps to the last entry declaring it, stored whole; every other key keeps its earlier value, and no key appears that is neither earlier nor declared |
| ConfigMapper.Include | utils/configMapper.py:53-59 | 'file' and then 'type' are popped; a missing 'type' is a KeyError; a type other than 'yaml' is an IncorrectFileTypeError; the stored entry loses both keys; the included subsystems join the same dict |
| ConfigMapper.NewMapperAsWritten | utils/configMapper.py:24-32 | as written: a mapper is built only when the file has 'compatibility' |
| ConfigMapper.NewMapper | utils/configMapper.py:24-32 | corrected: built iff the file loads and extracts, with a compatibility iff the file has one |
| ConfigMapper.MissingCompatibility | utils/configMapper.py:29-32 | a file without 'compatibility' is a KeyError as written and a mapper without compatibility when corrected |
| ConfigMapper.AsWrittenAgreesWhenPresent | utils/configMapper.py:29-30 | where the written constructor succeeds the corrected one builds the same mapper |
| ConfigMapper.WrongFileTypeFails | utils/configMapper.py:56-57 | an include whose type is not 'yaml' stops the extraction with IncorrectFileTypeError |
| ConfigMapper.PlainEntryStored | utils/configMapper.py:48-51 | an entry that declares a subsystem and includes nothing is stored whole |
| ConfigMapper.IncludedSubsystemsJoin | utils/configMapper.py:58-59 | the subsystems of an included file join the including file's dict, and an include needs recursion depth left |
| ConfigMapper.IncludeEntry | utils/configMapper.py:53-59 | a single including entry leaves exactly what its include gathered |
| ConfigMapper.SelfIncludeNeverEnds | utils/configMapper.py:58-59 | a file that includes itself recurses until the recursion limit, whatever the limit |
| ConfigMapper.GetSubsystem | utils/configMapper.py:87-93 | a known name gives its subsystem and an unknown one None; an unhashable name is a TypeError |
| ConfigMapper.GetSubsystems | utils/configMapper.py:95-100 | the names listed are exactly the stored subsystems |
| ConfigMapper.GetGroupDict | utils/configMapper.py:63-108 | as written: an unknown name is a TypeError, because the search iterates None; a result comes from a known subsystem, has distinct keys and no 'groups' key, and for a dict subsystem equals the corrected search's result |
| ConfigMapper.GetGroupDictFixed | utils/configMapper.py:63-108 | corrected: the same errors; a dict subsystem none of whose visited entries names the group gives an empty dict |
| ConfigMapper.CheckCompatibility | utils/configMapper.py:110-122 | a failure lowering the names comes first; then, without a compatibility, it is an AttributeError; otherwise true iff the compatibility is "all", "all" is among the lowered names, or something iterating the compatibility yields is among them |
| ConfigMapper.CharacterMatches | utils/configMapper.py:119-121 | example: a str compatibility is iterated by character, so a component listing one of its letters matches |
| FileSearch.PathJoin | utils/filehandler.py:40 | the joined path ends with the name, and an absolute name replaces the root |
| FileSearch.FindIn | utils/filehandler.py:38-42 | found iff some walk step lists the name; then it is the path in the first such step; otherwise NotADirectoryError naming the searched path |
| FileSearch.LaterStepsIgnored | utils/filehandler.py:38-40 | once the name is found, steps the walk yields later change nothing |
| FileSearch.LastIndex | utils/filehandler.py:18 | the position of the last occurrence, None iff there is none |
| FileSearch.Extension | utils/filehandler.py:18 | `os.path.splitext`: empty, or a suffix of the path that starts with its only '.' and has no '/' |
| FileSearch.PlainNameExtension | utils/filehandler.py:18 | a plain name followed by a one-dot extension such as `.json` has exactly that extension |
| FileSearch.Reported | utils/filehandler.py:73-77 | with extensions the name is reported whole, otherwise its prefix before the first '.' |
| FileSearch.AllFiles | utils/filehandler.py:67-79 | a name is reported iff some listed file not starting with '_' reports it |
| FileSearch.AllFilesKeepsOrder | utils/filehandler.py:70-77 | the listing is filtered in order, so concatenated listings give concatenated results |
| FileSearch.SunderNamesDropped | utils/filehandler.py:71-72 | names starting with '_' never come back |
| FileHandler.FileDirectory | utils/filehandler.py:31-42 | found iff the walk from the working directory lists the file; then the first match; otherwise the "File ... doesn't exist" NotADirectoryError |
| FileHandler.FolderDirectory | utils/filehandler.py:45-56 | the same for folders, with the "Folder ... doesn't exist" error |
| FileHandler.Load | utils/filehandler.py:12-28 | a file that is not found fails first; `.json` goes to the JSON parser, `.yml` to the YAML parser, and anything else is a NotImplementedError naming the extension |
| FileHandler.JsonFileParsed | utils/filehandler.py:17-22 | a found `base.json` is handed to the JSON parser |
| FileHandler.GetAllFiles | utils/filehandler.py:59-79 | succeeds iff the folder is found, and then lists its kept files |
| SrcFileHandler.SearchRoot | src/utils/filehandler.py:35-38 | a None or empty default path means the working directory, any other replaces it |
| SrcFileHandler.FileDirectory | src/utils/filehandler.py:30-44 | the file search of utils/filehandler.py started from the search root |
| SrcFileHandler.FolderDirectory | src/utils/filehandler.py:47-61 | the folder search started from the search root |
| SrcFileHandler.NoDefaultIsWorkingDirectory | src/utils/filehandler.py:35-36 | without a default path both searches are those of utils/filehandler.py |
| SrcFileHandler.Load | src/utils/filehandler.py:11-27 | the same dispatch on the extension, after a search without a default path |
| SrcFileHandler.GetAllFiles | src/utils/filehandler.py:64-84 | succeeds iff the folder is found from the working directory, and lists its kept files |
| FileManager.LoadAsWritten | utils/filemanager.py:23-31 | as written: a path without exactly one '.' is a ValueError, an unopenable one a FileNotFoundError, and every other a NotImplementedError, because the split drops the dot |
| FileManager.Load | utils/filemanager.py:23-33 | corrected: an unopenable path fails; `.json` and `.yml` are parsed; anything else is a NotImplementedError |
| FileManager.JsonPathLoads | utils/filemanager.py:23-27 | for `base.json` the written code fails and the corrected one parses |
| FileManager.GetAllFiles | utils/filemanager.py:50-62 | a name is reported iff a kept file reports it, and without extensions no name holds a '.' |
| FileManager.FindDirectory | utils/filemanager.py:65-97 | a name with a '.' is searched among files and any other among folders; found iff some walk step lists it |
| ButtonEvents.Fire | tmp/new_buttonmanager.py:50-62 | an action runs iff one of its registrations has a condition that holds for the reading, and no more actions run than are registered |
| ButtonEvents.FireKeepsOrder | tmp/new_buttonmanager.py:59-62 | registrations fire in registration order |
| TmpButtonManager.Register | tmp/new_buttonmanager.py:33-34 | registering appends to the shared queue and files nothing yet |
| TmpButtonManager.CreateFinal | tmp/new_buttonmanager.py:36-42 | the pair is appended under its controller and button, creating the levels that are missing, and every other button keeps its pairs |
| TmpButtonManager.FileAllAppends | tmp/new_buttonmanager.py:44-47 | filing the queue appends each controller's and button's queued pairs in queue order |
| TmpButtonManager.Exit | tmp/new_buttonmanager.py:44-47 | leaving a block files the whole queue and keeps it |
| TmpButtonManager.Block | tmp/new_buttonmanager.py:33-47 | a block's registrations join the queue |
| TmpButtonManager.EarlierBlockFiledTwice | tmp/new_buttonmanager.py:23-47 | a registration of one block is filed again by the next block, because the queue is never cleared |
| TmpButtonManager.UpdateButtons | tmp/new_buttonmanager.py:65-70 | every action run is registered under some controller and button whose reading satisfies its condition |
| TmpButtonManager.RunButtonsSound | tmp/new_buttonmanager.py:69-70 | the same for the buttons of one controller |
| TmpButtonManager.UpdateButtonsComplete | tmp/new_buttonmanager.py:65-70 | every registered action whose condition holds runs |
| TmpButtonManager.RunButtonsComplete | tmp/new_buttonmanager.py:69-70 | the same for the buttons of one controller |
| ButtonManager.View | utils/buttonmanager.py:25-34 | a controller has a list iff it has an entry |
| ButtonManager.Register | utils/buttonmanager.py:30-31 | registering appends to the shared container and leaves the entries alone |
| ButtonManager.Exit | utils/buttonmanager.py:33-34 | the controller's entry becomes the container itself, and every other controller's entry is unchanged |
| ButtonManager.SetValues | utils/buttonmanager.py:34 | `dict.update` for one key leaves only the new value or old pairs |
| ButtonManager.SetIsUpdateOrAppend | utils/buttonmanager.py:34 | the same for every pair |
| ButtonManager.Block | utils/buttonmanager.py:24-34 | a block's registrations join the container, and the controller then refers to the container |
| ButtonManager.BlockKeepsAliased | utils/buttonmanager.py:24-34 | after any blocks every controller still refers to the one container |
| ButtonManager.TwoManagersShareEntries | utils/buttonmanager.py:24-34 | two managers for two controllers each end up with both registrations |
| ButtonManager.BlockKeepsDistinct | utils/buttonmanager.py:30-34 | a block keeps the controllers of `entries` distinct, as the keys of a `dict` are |
| ButtonManager.Cleared | utils/buttonmanager.py:39-44 | once a button's press and release have been reported it reads as neither pressed nor released, its held state stays, and every other button reads as before |
| ButtonManager.RunEntry | utils/buttonmanager.py:36-47 | one registration's action runs iff its condition holds for the controller's reading of the button, and building `action_map` consumes both of that button's edges whatever the condition |
| ButtonManager.RunList | utils/buttonmanager.py:53-55 | each entry reads the pad the entries before it left, so an edge condition sees the edge only on the first entry for its button; an action runs iff some entry with that action fires in this sense; all actions run, in registration order, exactly when every entry fires; none run when no condition holds; afterwards every listed button's edges are consumed |
| ButtonManager.ShiftFires | utils/buttonmanager.py:53-55 | after the first entry has consumed its button's edges, a later entry fires in the rest of the list exactly when it fires in the whole list |
| ButtonManager.RunListStep | utils/buttonmanager.py:53-55 | the list's contract for the remaining entries, read from the pad the first entry left, and the first entry's run give the contract for the whole list |
| ButtonManager.StepMembers | utils/buttonmanager.py:53-55 | the actions run by the first entry and the rest are exactly those of entries firing in the whole list |
| ButtonManager.StepAll | utils/buttonmanager.py:53-55 | the first entry and the rest run every action, in order, exactly when every entry of the whole list fires |
| ButtonManager.RunListIsRun | utils/buttonmanager.py:53-55 | the list run with its contract computes the same actions and pad as the plain loop |
| ButtonManager.RunAppend | utils/buttonmanager.py:53-55 | the plain loop over two lists joined runs the first from the pad, then the second from the pad the first left |
| ButtonManager.RunListAppend | utils/buttonmanager.py:53-55 | running two lists joined runs the first list's actions, then the second's read from the pad the first left |
| ButtonManager.SecondPressEntryNeverRuns | utils/buttonmanager.py:37-44 | example: with two press entries on one pressed button only the first entry's action runs, because the first `getRawButtonPressed` consumed the press |
| ButtonManager.OtherControllerUnaffected | utils/buttonmanager.py:37-44 | consuming one controller's edges leaves every reading of another controller's buttons as it was |
| ButtonManager.ClearedFiresLess | utils/buttonmanager.py:39-44 | consuming edges can only stop an entry from firing, never make it fire |
| ButtonManager.UpdateButtons | utils/buttonmanager.py:49-55 | every action run belongs to an entry whose condition held for the pad at the start; with distinct controllers an action runs iff some controller's entry with that action fires in its list; afterwards held buttons are unchanged, edges are only consumed, and every listed button has none left |
| ButtonManager.UpdateSoundStep | utils/buttonmanager.py:52-55 | the first controller's run and the rest's soundness give soundness for all controllers |
| ButtonManager.UpdateExactStep | utils/buttonmanager.py:52-55 | with distinct controllers the first controller's run and the rest's exact firing set give the exact firing set for all controllers |
| ButtonManager.ExactStep | utils/buttonmanager.py:52-55 | with distinct controllers the later controllers read their buttons as they were at the start |
| ButtonManager.UpdatePadStep | utils/buttonmanager.py:52-55 | the first controller's consumed edges and the rest's give the pad facts for all controllers |
| ButtonManager.EachEntryRunsPerController | utils/buttonmanager.py:49-55 | with every controller aliasing the container and every entry firing for every controller, an update runs the container's actions in registration order, once per controller |
| ButtonManager.AllFiringRunsActions | utils/buttonmanager.py:53-55 | when every entry fires in the list, the first entry on a button taking its edge, the list runs exactly its actions in order |
| ButtonManager.ActionCountPerController | utils/buttonmanager.py:49-55 | with every entry firing for every controller, an update runs controllers times registrations actions |
| ButtonManager.BlockFixed | utils/buttonmanager.py:30-34 | corrected: the controller's entries are its own block's registrations, and other controllers are untouched |
| ButtonManager.UpdateButtonsFixed | utils/buttonmanager.py:49-55 | corrected: no more actions run than registrations exist; every action run belongs to a registration whose condition held at the start; with distinct controllers an action runs iff some controller's registration with that action fires in its list |
| ButtonManager.FixedSoundStep | utils/buttonmanager.py:52-55 | corrected: the first controller's run and the rest's soundness give soundness for all controllers |
| ButtonManager.FixedExactStep | utils/buttonmanager.py:52-55 | corrected: with distinct controllers the first controller's run and the rest's exact firing set give the exact firing set for all |
| ButtonManager.FixedKeepsEntriesApart | utils/buttonmanager.py:24-34 | corrected: two controllers keep their own registrations and an update runs the first controller's registration for the first controller and then the second's for the second, each reading the pad as it was |
| ButtonManager.SingleRun | utils/buttonmanager.py:53-55 | a list of one entry runs exactly that entry |
| DriveTrain.Setup | components/driveTrain.py:21-31 | the left motor is looked up before the right, each missing one a KeyError; the drive starts disabled, out of creeper mode, with zero speeds |
| DriveTrain.SetTank | components/driveTrain.py:43-46 | tank mode with the two speeds, nothing else changed |
| DriveTrain.SetArcade | components/driveTrain.py:48-51 | arcade mode with the speed and rotation, nothing else changed |
| DriveTrain.Stop | components/driveTrain.py:68-69 | disabled whatever `coast` says, nothing else changed |
| DriveTrain.EnableCreeperMode | components/driveTrain.py:53-59 | on: no change; off: the multiplier is saved and becomes 0.25 |
| DriveTrain.DisableCreeperMode | components/driveTrain.py:61-66 | off: no change; on: the saved multiplier comes back |
| DriveTrain.CreeperRoundTrip | components/driveTrain.py:53-66 | enabling then disabling creeper mode restores the multiplier |
| DriveTrain.EnableTwiceStillRestores | components/driveTrain.py:55-57 | a second enable does not overwrite the saved multiplier |
| DriveTrain.Execute | components/driveTrain.py:74-79 | tank drive iff tank mode and arcade drive iff arcade mode, each with its stored values; nothing otherwise |
| DriveTrain.LastRequestDrives | components/driveTrain.py:43-79 | the last of tank, arcade and stop decides what is driven |
| DriveTrain.CreeperModeNotApplied | components/driveTrain.py:53-79 | creeper mode does not change what is driven, as the multiplier is not used there |
| ShooterMotors.Setup | components/ShooterMotors.py:6-18 | flags off and speeds zero; the loader, intake and shooter motors are looked up in that order, the first missing one a KeyError |
| ShooterMotors.RunLoader | components/ShooterMotors.py:22-24 | the loader runs at the given speed, nothing else changed |
| ShooterMotors.RunIntake | components/ShooterMotors.py:26-28 | the intake runs at the given speed, nothing else changed |
| ShooterMotors.RunShooter | components/ShooterMotors.py:30-32 | the shooter runs at the given speed, nothing else changed |
| ShooterMotors.StopIntake | components/ShooterMotors.py:34-35 | only the intake's flag is cleared |
| ShooterMotors.StopLoader | components/ShooterMotors.py:37-38 | only the loader's flag is cleared |
| ShooterMotors.StopShooter | components/ShooterMotors.py:40-41 | only the shooter's flag is cleared |
| ShooterMotors.IsLoaderActive | components/ShooterMotors.py:43-44 | true iff the loader's flag is set |
| ShooterMotors.Execute | components/ShooterMotors.py:46-60 | each motor gets its stored speed iff its flag is set, else 0 |
| ShooterMotors.StopSilencesOnlyItsMotor | components/ShooterMotors.py:22-60 | a stop silences its motor only and keeps the stored speed; a run drives its motor |
| Pneumatics.Setup | components/doof/pneumatics.py:14-23 | the solenoid and then the compressor are looked up, each missing one a KeyError; nothing is pending and the compressor is started |
| Pneumatics.GetLoaderDeployed | components/doof/pneumatics.py:25-29 | deployed iff the solenoid is forward |
| Pneumatics.DeployLoader | components/doof/pneumatics.py:31-35 | forward is requested and nothing moves yet |
| Pneumatics.RetractLoader | components/doof/pneumatics.py:38-42 | reverse is requested and nothing moves yet |
| Pneumatics.ToggleLoader | components/doof/pneumatics.py:45-50 | the opposite of the solenoid's current position is requested, an off solenoid counting as retracted |
| Pneumatics.Execute | components/doof/pneumatics.py:58-64 | a pending request moves the solenoid and is cleared; with none nothing changes |
| Pneumatics.ToggleFlipsDeployed | components/doof/pneumatics.py:45-64 | a toggle followed by an execute flips whether the loader is deployed |
| Pneumatics.ExecuteIdempotent | components/doof/pneumatics.py:62-64 | a second execute with nothing requested changes nothing |
| Pneumatics.ToggleTwiceBeforeExecute | components/doof/pneumatics.py:31-64 | two toggles before an execute act as one; deploy and retract reach their positions whatever was pending |
| BreakSensors.Collect | components/breakSensors.py:18-19 | succeeds iff every key in the range is present, with the inputs in order; otherwise the KeyError of the first missing key |
| BreakSensors.OnEnable | components/breakSensors.py:16-20 | five inputs, "sensor1" to "sensor5", all required |
| BreakSensors.Matches | components/breakSensors.py:22-32 | true iff the sensor at the index reads the requested state; an index past the array is an IndexError |
| BreakSensors.SensorsAreFirstAndFifth | components/breakSensors.py:3-32 | the loading test reads "sensor1" and the shooting test "sensor5" |
| BreakSensors.TrippedOrNot | components/breakSensors.py:7-9 | exactly one of tripped and not tripped holds for a sensor |
| FeederMap.TriggerDirection | components/feederMap.py:35-43 | forwards iff the right trigger alone is pulled, backwards iff the left alone |
| FeederMap.Run | components/feederMap.py:32-56 | the named element runs at its own speed in the trigger's direction, and is stopped otherwise |
| FeederMap.TriggersSymmetric | components/feederMap.py:35-56 | swapping the triggers swaps the direction; both pulled stops the element |
| Elevator.OnEnable | components/elevator.py:11-14 | stopped, the motor required, a missing one a KeyError |
| Elevator.SetRaise | components/elevator.py:16-17 | the speed becomes the up speed, the tunables unchanged |
| Elevator.SetLower | components/elevator.py:19-20 | the speed becomes the down speed, the tunables unchanged |
| Elevator.Stop | components/elevator.py:22-23 | the speed becomes 0 |
| Elevator.Execute | components/elevator.py:25-26 | the motor gets 0, the up speed or the down speed |
| Elevator.LastRequestWins | components/elevator.py:16-26 | the last of raise, lower and stop decides what the motor gets |
| Winch.OnEnable | components/winch.py:10-18 | stopped; the motor and then the controller are looked up, each missing one a KeyError |
| Winch.SetRaise | components/winch.py:20-24 | the speed becomes 0.5 |
| Winch.Stop | components/winch.py:26-30 | the speed becomes 0 |
| Winch.Execute | components/winch.py:32-39 | the motor gets 0.5 iff the hat reads 0, and 0 otherwise |
| Winch.PovAloneDecides | components/winch.py:32-39 | raise or stop calls between executes are overruled by the hat |
| TmpWinch.OnEnable | tmp/components/winch.py:10-18 | as the other winch, with the controller from the Xbox controllers |
| TmpWinch.Execute | tmp/components/winch.py:32-39 | the motor gets 0.5 iff `pov` reads 0, and 0 otherwise |
| TmpWinch.KeptOnlyByRobotList | tmp/components/winch.py:4 | without a `compatString` it is never disabled by that test, and the `robot` list keeps it exactly for "doof" |
| Intake.OnEnable | components/intake.py:12-14 | the controller and then the motor are looked up, each missing one a KeyError |
| Intake.RunIntake | components/intake.py:16-20 | the right trigger drives the motor in at 0.7, otherwise the left drives it out, otherwise the motor keeps its setting |
| Intake.ReleasedKeepsRunning | components/intake.py:16-23 | example: after a trigger, released triggers leave the motor running however many executes follow |

## Left out

- Vendor behaviour is left out. The CTRE, REV, wpilib and navX objects are tagged records of what was built and with which arguments. Their PID, current-limit, `follow` and `set` calls are recorded as arguments or not modelled, because that code is not part of this model.
- Controller polling threads are left out. They need threads and hardware. In `ButtonManager` the driver station is a `Pad` parameter: the buttons with an unreported press or release and the buttons held, with controllers identified by port. `getRawButtonPressed` and `getRawButtonReleased` consume the edge they report, and that is modelled. `TmpButtonManager` samples each button once per update, so its reading is a `Sample` parameter. A trigger or hat value is a number parameter.
- MotorHelper.GetAttr: a class attribute is returned as its name, not as the bound method or descriptor value, and the attributes of `object` are those of CPython 3.8; the stored items are constructor names, so the `__bases__` guard's `in` test is a substring test on a name.
- `bool` and `int` are distinct values: Python's `True == 1` (and so one dict key for both) is not modelled; configurations compare them only by their own kind.
- A constructor class's `__required_keys__` is read as the class's own attribute: a value inherited from a base class, which `getattr` finds but `c.__dict__.get` does not (so the loop iterates None and raises TypeError), is not modelled.
- JsonConfigMapper.PairOf: a pair whose key is hashable but not a str (a number, a bool, None or a tuple) is refused with TypeError, though `dict.update` stores it; the configuration dicts of this model have str keys only.
- Values.PyStr: `str()` of a float or a container is a fixed tag, not Python's text, so two different float (or container) channels give the same motor-table key here.
- SparkMax.PidSetup: the accepted control types are the seven members of REV's `ControlType` enum as listed in the model; the REV library itself is not part of this model.
- File system access is left out: opening files, `os.walk`, `os.listdir`, `os.getcwd` and `Path.home`. Walks, listings, the working directory and the marker file's first line are parameters.
- JSON and YAML parsing, and `chardet` encoding detection, are left out. The parsers are parameters. Wherever `findConfig` asks `chardet` for an encoding (always in utils/robotInitializer.py and utils/reworkedConfig.py, on the `use_encoding` path in utils/jsonConfigMapper.py) the decoded line is taken as given: an empty stripped line has no detected encoding, and any other line is taken to have one.
- Reflection is left out: `get_type_hints`, `import_module`, `getattr` on modules and `inspect`. Each class is a declaration record of its type name, required keys, annotations and attributes, and module lookup is a function parameter.
- Logging, `print`, the tkinter configuration window and the magicbot `tunable` machinery are left out. None of them decides an outcome, except the `len(subsystems)` inside the factory walk's first log line, which raises TypeError for None, a bool or a number and is modelled. Tunables are plain parameters with their default values as constants.
- Text is handled as ASCII only. `lower`, `isalpha`, `isupper` and `strip` have no Unicode case tables or whitespace classes.
- ConfigMapper.Extract: the stored contents (last declaration wins, nothing else added) and the success condition are proved only for documents that include no file (`ConfigMapper.ExtractPlain`). With includes, the model states that earlier and declared subsystems are kept, and `ConfigMapper.IncludeEntry` and `ConfigMapper.IncludedSubsystemsJoin` describe one include; the contents over a chain of loaded files are not stated.
- The include recursion in `ConfigMapper.Extract` is bounded by a `depth` parameter that stands for Python's recursion limit. Running out gives RecursionError.
- `findConfig` of utils/configMapper.py is not modelled. Only the mapper's constructor, extraction, group search, `getSubsystem` and `checkCompatibility` are.
- `_ArgumentHelper` of utils/configwindow.py and the command-line parsing in utils/configmanager.py are left out; only the chosen name is modelled. The `--config` handling of utils/configutil.py is modelled.
- components/shooterMotors.py, the module `FeederMap` calls, is not part of this model. `FeederMap.Run` returns the command it would send.
- `getLeft`, `getRight`, `isStopping`, `getMeasuredSpeed` and `getCompressorCurrent` are left out. They read hardware or do nothing.
- The `__main__` test blocks of the utility modules are left out.
- GroupDicts.Collect: the selection property, both ways, is proved for the corrected `GroupDicts.CollectFixed` (`GroupDicts.FixedKeepsSelectedFields`, `GroupDicts.FixedOnlySelectedFields`), and carries over to the search as written only through `GroupDicts.WrittenAgreesWithFixed`, where it succeeds. As written, the search fails on the first numeric field of a group entry (see "## Findings").
- `DriveTrain.Execute`: the multiplier is not applied, exactly as in the source. Creeper mode therefore changes a stored number and nothing that is driven.
- Actuator.BuildMotor: the doubled `self` passed to the vendor constructors of the Feedback classes is taken as accepted. The in-place rewrite of `motor_descp['motorType']` to the enum member is not modelled, and neither is the CANTalonFXFollower's registration before its current limits fail.
- Actuator.GenerateMotorFixed: the corrected Feedback classes also read `self.pid` and `self.ControlType` as the PID dict and the control type, which the code as written never assigns either.
- `DriveTrain.DisableCreeperMode`: it requires a saved multiplier whenever creeper mode is on. Only `enableCreeperMode` turns creeper mode on, and it always saves one.

## Findings

| source | as written | input that shows it | evidently intended | confidence | as-written member | corrected member |
|---|---|---|---|---|---|---|
| utils/configwindow.py:106 | `strip(".json")` removes any of the characters '.', 'j', 's', 'o', 'n' from both ends | "scorpion.json" gives "corpi" | remove the ".json" suffix, giving "scorpion" | high, not executed | ConfigWindow.NameStripsRobotLetters | ConfigWindow.IntendedNameRoundTrip |
| utils/hardwaremanager.py:366-381 | a SparkMax stores itself under its raw (integer) channel, but followers look up `str(masterChannel)` | a master on channel 1, then a follower with masterChannel 1, follows None | store and look up under the same key | high, not executed | SparkMax.IntChannelMasterNotFound | SparkMax.FixedFollowerFindsMaster |
| utils/hardwaremanager.py:456-457 | stopping a coast restores `control_type` to the raw `init_control_type` string | with PID, `set(0)` and then `set(0.5)` leaves a string where the ControlType member was | restore the member that PID setup chose | medium, not executed | SparkMax.StopCoastLosesMember | SparkMax.CoastThenDriveRestores |
| factories/actuator.py:116-445 | `__generate_motor` has no return statement | any valid motor descriptor, such as a CANTalonSRX on channel 1, yields None | return the built motor | high, not executed | Actuator.MotorItemIsNone | Actuator.GenerateMotorFixed |
| factories/actuator.py:245-303 | `SparkMaxFeedback.__init__` and the PID branch of `WPI_TalonFXFeedback.__init__` read `self.motorDescription`, which no code assigns | a SparkMaxFollower with "motorType": "kBrushless", or a CANTalonFX on channel 1 with a "pid" dict, raises AttributeError | read the descriptor passed in | high, not executed | Actuator.SparkMaxFollowerNeverBuilds | Actuator.FollowerOfSparkMaxFindsIt |
| factories/actuator.py:489-491 | the `pcm` test asks whether the integer key 0 is in the descriptor | a solenoid descriptor with "pcm": 3 is built on module 0 | use the descriptor's "pcm" when present | high, not executed | Actuator.SolenoidIgnoresPcm | Actuator.GenerateSolenoidFixed |
| factories/motorHelper.py:570-574 | the `__bases__` guard reads an attribute that `_Mapping.__getattr__` turns into a KeyError | any descriptor with `HardwareComponents` fails with KeyError "__bases__" | check that the mapping is a `_Mapping` | high, not executed | MotorHelper.HardwareComponentsGuardFails | MotorHelper.FixedBuildsRegistered |
| utils/hardware/hardware_manager.py:29-35 | the loaded mapping is iterated without `.items()`, and `setattr` gets no value | any non-empty configuration fails on its first entry | walk the items and set each group on the robot | high, not executed | HardwareMap.AsWrittenSetsNothing | HardwareMap.Generate |
| utils/robotutil.py:39-68 | the incompatible components are deleted from the dict `get_type_hints` returns, a fresh copy that is then dropped | a class with a component whose `robot` list is ["other"], cleaned up with key "doof", still has that component | delete the components from the class's own annotations | high, not executed | RobotUtil.CleanupKeepsIncompatible | RobotUtil.CleanupComponentsFixed |
| utils/configutil.py:68-128 | `_cleanup_components` reads `robot_name` before `__init__` assigns it | a robot with one component that has a `robot` list fails with AttributeError | assign the robot name before the clean-up | high, not executed | ConfigUtil.AsWrittenReadsUnsetName | ConfigUtil.FixedSucceedsWhereAsWrittenFails |
| utils/jsonConfigMapper.py:109-115 | `'groups' in subsystem[key]` is asked of every value, numbers included | a group entry {"groups": ["g"], "channel": 1} raises TypeError | ask only dict entries | medium, not executed | GroupDicts.NumericFieldFails | GroupDicts.FixedSelectsGroupEntry |
| utils/jsonConfigMapper.py:194-219 | an empty marker when not strict becomes None, and the character test then iterates None; with the encoding, `detect(b'')` finds no encoding and `None.lower()` is called first | a marker line "123" read without the encoding raises TypeError; an empty marker read with the encoding raises AttributeError | return None when not strict, as the docstring promises | high, not executed | JsonConfigMapper.EmptyMarkerNotStrict | JsonConfigMapper.FindConfig |
| utils/configMapper.py:29-32 | the `except` names NoCompatibilityError, which indexing never raises | a file without 'compatibility' raises KeyError | log the error and build the mapper | high, not executed | ConfigMapper.MissingCompatibility | ConfigMapper.AsWrittenAgreesWhenPresent |
| utils/filemanager.py:23-31 | `file_dir.split('.')` drops the dot, so the type is never ".json" or ".yml" | "doof.json" raises NotImplementedError; every hardware path of utils/configmanager.py and the default map of utils/hardware/hardware_manager.py raise ValueError, so both start-ups always fail (`ConfigManager.FileManagerLoadFails`, `HardwareMap.DefaultMapFails`) | dispatch on the extension with its dot | high, not executed | FileManager.LoadAsWritten | FileManager.JsonPathLoads |
| utils/buttonmanager.py:24-34 | every manager hands out and files the one class-level list | two managers for two controllers leave both controllers with both registrations | each controller keeps its own registrations | high, not executed | ButtonManager.TwoManagersShareEntries | ButtonManager.FixedKeepsEntriesApart |
