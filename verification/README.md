# Verified model of the Stryke Force robot code

This Dafny project models the control logic of a swerve-drive robot and of the tools and the vision
computer around it, over ideal real numbers and unbounded integers.

- `Maths.dfy`: the numeric library. `sin`, `cos`, `atan2` and `sqrt` are any four functions that obey the
  usual laws; `fmod`, `round` and truncation are defined as in C. Angles are in degrees.
- `Steering.dfy`: the azimuth optimiser of one wheel as a function on values: what a step keeps, that it is
  optimal, and what the pair (setpoint, signed speed) means.
- `Kinematics.dfy`: rotation vectors, desaturation, rigid-body geometry.
- `SwerveMath.dfy`: the stateful calculator with its four buffers, and theorems over every run of calls.
- `SwerveDrive.dfy`: field orientation, dead zone, tick rounding, brake position.
- `AutonDrive.dfy`: the autonomous drive command: truncated distance sum, speed profile, segment iterator,
  settle counter, closed-loop termination.
- `Sma.dfy`: the moving average in a ring buffer.
- `DeviceRegistry.dfy`: the device list of the tuning tool against its two maps and a heap of objects.
- `Cannon.dfy`: Fire, Reset and the timer callback in any interleaving.
- `VisionLink.dfy`: the robot and Jetson protocol over datagrams that are lost, duplicated and reordered, with
  the Jetson's mode loop and camera.
- `BoilerFrame.dfy`: selection of the two boiler targets.
- `Expo.dfy`: the joystick curve. `ReleaseGear.dfy`: the rest detector of the gear pivot.

Code that updates state is a class whose methods are proved equal to a function on values; the theorems are
about those functions and hold in every reachable state.

What the proofs found where the code does not keep an obvious promise. Each has an exact condition and a lemma
that shows a failing input:

- Some brake angles below -270 degrees make `GetBrakeAzimuth` turn a wheel by more than a quarter turn, although
  the wheel still ends on the right line: those whose `fmod` by 360, after adding 270, is below -270, such as
  -629 (`SwerveMath.BrakeIsSafeIff`, `SwerveMath.BrakeOverturns`).
- Rotation about any point but the center makes the wheels scrub, because each rotation vector is normalised
  separately (`Kinematics.OnlyCenterIsRigid`, `Kinematics.ShooterScrubs`).
- The autonomous profile leaves its speed limits when the robot is further from the target than it started
  (`AutonDrive.ProfileBoundedIff`), and on a drive shorter than its acceleration ramp plus the target band the
  motors still run inside the band (`AutonDrive.BandIsQuietIff`); `AutonDrive.ShortDriveBreaksBoth` shows both.
- A Talon number outside 0 to 255 is filed under its low byte and may be looked up as another Talon
  (`DeviceRegistry.TalonLookupIff`, `DeviceRegistry.WideTalonNumberAliases`).
- A camera connection that fails on entering its mode is tried again only by an iteration that comes from another
  mode: a request for another mode that is overwritten before the next iteration does not help
  (`VisionLink.ConnectedIff`, `VisionLink.OverwrittenRequestDoesNotReconnect`).

Where code and documentation disagree the code is followed. The comment on `SwerveMath::operator()` promises
speeds from 0 to 1; the code returns -1 to 1. The comments on the drive dead zone say "less than"; the code
compares forward and strafe with "at most". The expected azimuths in `sidewinder/test/swerve_test_data.h` have
the opposite sense of rotation from the code. The corner enumeration of `swerve_math.h` names index 0 left front,
the outputs name it right front; all claims here are per index.

## Model

| member | source | states |
|---|---|---|
| Steering.SteerKeepsSync | sidewinder/src/swerve/swerve_math.cc:57-78 | One steering step makes the history the request and leaves the setpoint on the line of the history, turned half way round exactly when the wheel is reversed; for every request and past |
| Steering.QuarterTurnIff | sidewinder/src/swerve/swerve_math.cc:59-78 | A step turns by at most 90 degrees exactly when the request is not more than 630 degrees behind the history |
| Steering.NoCloserSetpoint | sidewinder/src/swerve/swerve_math.cc:64-78 | No setpoint on the same wheel line is closer to the old one than the one chosen |
| Steering.ReverseIff | sidewinder/src/swerve/swerve_math.cc:71-77 | The wheel is reversed exactly when every way round to the request is longer than a quarter turn, so a change of exactly a quarter turn is steered |
| Steering.SteerIsOnly | sidewinder/src/swerve/swerve_math.cc:57-78 | The step is determined by its promises: in step with the request, at most a quarter turn, reversed only when it must be |
| Steering.FarBehind | sidewinder/src/swerve/swerve_math.cc:138-156 | A brake request more than a turn and a half behind always reverses the wheel and moves it by the change plus a turn and a half |
| Steering.SteerTwiceIsOnce | sidewinder/src/swerve/swerve_math.cc:57-78 | Repeating a request changes nothing |
| Steering.TicksMeaning | sidewinder/src/swerve/swerve_drive.cc:401-404 | The tick setpoint is within half a tick of the angle at 4096 ticks a turn, halves going away from zero |
| Steering.TickStepBounded | sidewinder/src/swerve/swerve_drive.cc:401-404 | After rounding, consecutive tick setpoints differ by at most 1025 |
| Steering.TickStepIsTight | sidewinder/src/swerve/swerve_drive.cc:401-404 | A difference of 1025 ticks is reached |
| Steering.HeadingRange | sidewinder/src/swerve/swerve_math.cc:56-58 | When driving, `fmod` is applied to a non-negative angle and gives the heading in [0, 360) of the demand, counted from straight ahead |
| Steering.SteeredVelocity | sidewinder/src/swerve/swerve_math.cc:54-91 | Setpoint and signed speed of a steered wheel mean exactly the demanded velocity times the common factor, whatever the past flips |
| Kinematics.DesaturationRange | sidewinder/src/swerve/swerve_math.cc:83-98 | The common factor is in (0, 1] and is 1 exactly when no magnitude exceeds 1 |
| Kinematics.DriveMeaning | sidewinder/src/swerve/swerve_math.cc:50-107 | Each commanded wheel velocity is the demand times one factor common to all wheels |
| Kinematics.SpeedsSaturate | sidewinder/src/swerve/swerve_math.cc:83-98 | All speeds are within full speed; either nothing is slowed or some wheel is at exactly full speed |
| Kinematics.WheelsOnRectangle | sidewinder/src/swerve/swerve_math.cc:22-33 | The wheels stand on the corners of the wheelbase rectangle around the center |
| Kinematics.RotationShare | sidewinder/src/swerve/swerve_math.cc:30-36 | The rotation adds the rotation rate across the line from the wheel to the point, clockwise when positive, and nothing along it |
| Kinematics.PairScrub | sidewinder/src/swerve/swerve_math.cc:29-37 | The scrub between two wheels about any point comes only from the difference of their distances to it |
| Kinematics.RigidIff | sidewinder/src/swerve/swerve_math.cc:29-55 | Two wheels move as one rigid body exactly when there is no rotation, or the point is in line with both, or equally far from both |
| Kinematics.OnlyCenterIsRigid | sidewinder/src/swerve/swerve_math.cc:29-55 | When turning, all wheels move as one rigid body exactly about the center of the chassis |
| Kinematics.ShooterScrubs | sidewinder/src/swerve/swerve_math.cc:29-55 | A chassis whose front wheels scrub when turning about its shooter point |
| Kinematics.CenterEquidistant | sidewinder/src/swerve/swerve_math.cc:213-214 | All wheels are equally far from the center |
| Kinematics.CenterIsRigid | sidewinder/src/swerve/swerve_math.cc:52-98 | About the center no pair of wheels scrubs, before and after desaturation |
| Kinematics.CenterMean | sidewinder/src/swerve/swerve_math.cc:52-55 | About the center the mean demand is the commanded translation for every rotation rate |
| SwerveMath.CalcRotationVectors | sidewinder/src/swerve/swerve_math.cc:19-39 | Computes the unit rolling direction of each corner about a point |
| SwerveMath.SwerveMath.constructor | sidewinder/src/swerve/swerve_math.h:30-35 | Starts with all wheels straight, not reversed, history zero, rotation vectors of the chassis |
| SwerveMath.SwerveMath.SteerWheel | sidewinder/src/swerve/swerve_math.cc:57-78 | The in-place update with its two options, wrap and flip is the reference step on that wheel and touches no other |
| SwerveMath.SwerveMath.Drive | sidewinder/src/swerve/swerve_math.cc:50-108 | The three loops steer every wheel to its demand and leave the signed, desaturated speeds |
| SwerveMath.SwerveMath.GetBrakeAzimuth | sidewinder/src/swerve/swerve_math.cc:131-165 | Steers every wheel to its brake angle, for all angles, and keeps the history invariant |
| SwerveMath.ShortWay | sidewinder/src/swerve/swerve_math.cc:59-68 | The smaller option is the change reduced to the nearest way round, and the wrapped history is the request |
| SwerveMath.RunKeepsSync | sidewinder/src/swerve/swerve_math.cc:57-78 | In every state reachable by drive and brake calls each history lies in [0, 360), is the last request and agrees with the setpoint |
| SwerveMath.DriveAfterAnyRun | sidewinder/src/swerve/swerve_math.cc:50-107 | After any run a drive call commands the demanded velocities times one factor in (0, 1], all speeds within 1, some at 1 if any was cut |
| SwerveMath.SteeringAfterAnyRun | sidewinder/src/swerve/swerve_math.cc:59-78 | After any run a drive call turns each wheel by at most 90 degrees, no equivalent setpoint is nearer, ticks move by at most 1025 |
| SwerveMath.ReversesAfterAnyRun | sidewinder/src/swerve/swerve_math.cc:71-77 | After any run a drive call reverses a wheel exactly when its new heading is more than a quarter turn from the last request, whichever way round |
| SwerveMath.BrakeAfterAnyRun | sidewinder/src/swerve/swerve_math.cc:137-158 | After any run a brake call turns a wheel by at most 90 degrees exactly under a condition on its wrapped angle, which every angle from -270 up meets |
| SwerveMath.BrakeIsSafeIff | sidewinder/src/swerve/swerve_math.cc:137-158 | A brake angle turns a wheel by at most a quarter turn after every run exactly when `fmod` of the angle plus 270 is at least -270 |
| SwerveMath.BrakeOverturns | sidewinder/src/swerve/swerve_math.cc:137-158 | After braking to 89 degrees the brake angle -629 turns a wheel by more than a quarter turn |
| SwerveMath.RepeatMovesNothing | sidewinder/src/swerve/swerve_math.cc:50-165 | Repeating the last call moves no wheel, whatever came before |
| SwerveDrive.FieldRoundTrip | sidewinder/src/swerve/swerve_drive.cc:356-361 | The field rotation is undone by the opposite rotation and keeps lengths |
| SwerveDrive.FieldTurn | sidewinder/src/swerve/swerve_drive.cc:356-360 | The robot sees a field command turned against its own clockwise heading by the gyro angle |
| SwerveDrive.DeadZoneIff | sidewinder/src/swerve/swerve_drive.cc:383-385 | The dead zone is closed in forward and strafe, open in azimuth; with none the motors never stop |
| SwerveDrive.TalonsDo | sidewinder/src/swerve/swerve_drive.cc:401-409 | What the Talons receive, read back at their scale, makes every wheel move as demanded times one factor, none beyond the scale and one at it if any is slowed, every azimuth within half a tick |
| SwerveDrive.MeanFollows | sidewinder/src/swerve/swerve_drive.cc:401-409 | The mean velocity read back from the Talons is the commanded translation times that factor |
| SwerveDrive.FieldFollows | sidewinder/src/swerve/swerve_drive.cc:356-409 | The same in field axes |
| SwerveDrive.BrakePosition | sidewinder/src/swerve/swerve_drive.cc:190-196 | From any state, wheels 0 and 2 end on one line at -40 degrees and wheels 1 and 3 on its mirror image at 40, none turned more than a quarter |
| SwerveDrive.FieldFrameConservation | sidewinder/src/swerve/swerve_drive.cc:356-409 | The mean wheel velocity turned back to the field is the command times the desaturation factor, for any gyro angle and rotation rate |
| SwerveDrive.CommandAfterAnyRun | sidewinder/src/swerve/swerve_drive.cc:349-409 | After any run a field-oriented command moves the wheels as one rigid body in the commanded direction, slowed only if some wheel is at full speed |
| SwerveDrive.SwerveDrive.Drive | sidewinder/src/swerve/swerve_drive.cc:349-362 | Rotates by the gyro unless disabled; outside the dead zone the Talons then make the robot translate as commanded in field axes, slowed only if some wheel is at full speed |
| SwerveDrive.SwerveDrive.DriveRobot | sidewinder/src/swerve/swerve_drive.cc:379-409 | In the dead zone only the drive motors stop and wheel state is untouched; otherwise the Talons make every wheel follow the command |
| SwerveDrive.SwerveDrive.DriveConfigured | sidewinder/src/swerve/swerve_drive.cc:367-369 | Drives with the configured dead zone |
| SwerveDrive.SwerveDrive.TargetRotation | sidewinder/src/swerve/swerve_drive.cc:429-445 | Rotates about the shooter point without a dead zone; the Talons make every wheel follow |
| SwerveDrive.SwerveDrive.SetBrake | sidewinder/src/swerve/swerve_drive.cc:182-206 | Brings the wheels into the crossed brake position by at most a quarter turn each, sends the rounded setpoints and zeroes the drive encoders |
| AutonDrive.AccumulateIs | steamworks/src/commands/drive/auton/drive.cc:28-31 | The integer-seeded sum keeps exactly the whole units of each segment |
| AutonDrive.AccumulateStep | steamworks/src/commands/drive/auton/drive.cc:28-31 | One more segment adds its whole units |
| AutonDrive.AccumulateLoses | steamworks/src/commands/drive/auton/drive.cc:28-31 | For n segments it falls short of the real path by less than n and never exceeds it |
| AutonDrive.MakeProfileSane | steamworks/src/commands/drive/auton/drive.cc:32-38 | A configuration with positive speeds and accelerations gives a well-formed profile with no zero divisor |
| AutonDrive.MakeProfileMeaning | steamworks/src/commands/drive/auton/drive.cc:32-38 | Speeds are fractions of 400, the dead zone a tenth of the minimum, and each ramp is the distance to full speed at its own acceleration |
| AutonDrive.CruiseIsFull | steamworks/src/commands/drive/auton/drive.cc:118-120 | Between the ramps the speed is the maximum |
| AutonDrive.AccelSide | steamworks/src/commands/drive/auton/drive.cc:107-109 | While accelerating the speed never falls toward the target and is the straight line that starts at the minimum |
| AutonDrive.DeaccelSide | steamworks/src/commands/drive/auton/drive.cc:110-116 | While decelerating the speed never rises toward the target and is the straight line that ends at the minimum at the band |
| AutonDrive.ProfileSpeedOdd | steamworks/src/commands/drive/auton/drive.cc:122 | Past the target the speed is that for the same distance before it, backwards |
| AutonDrive.RampsAreStraight | steamworks/src/commands/drive/auton/drive.cc:107-116 | Both ramps are straight lines between the minimum and the maximum speed with the right end points |
| AutonDrive.ProfileBoundedIff | steamworks/src/commands/drive/auton/drive.cc:105-122 | The speed is zero by intent or within its limits exactly when the remaining distance does not exceed the total, or the profile is flat |
| AutonDrive.BandIsQuietIff | steamworks/src/commands/drive/auton/drive.cc:107-113 | The target band commands nothing exactly when it is clear of the acceleration ramp and within the deceleration ramp |
| AutonDrive.ShortDriveBreaksBoth | steamworks/src/commands/drive/auton/drive.cc:105-122 | A configuration whose speed leaves its limits beyond the starting distance and is not zero inside the target band |
| AutonDrive.DeadZoneStopsIff | steamworks/src/commands/drive/auton/drive.cc:122-132 | Scaled by a unit direction, with or without field rotation, the drive dead zone stops the motors exactly when the profile speed is zero |
| AutonDrive.Journey.CommandReachesMotors | steamworks/src/commands/drive/auton/drive.cc:88-132 | The same in every tick after the start-up delay of every run within the profile's range |
| AutonDrive.Journey.WheelsFollow | steamworks/src/commands/drive/auton/drive.cc:95-132 | In every tick after the start-up delay, after any earlier use of the drive, a profile speed within full speed moves every wheel with exactly that speed along the angle of the active segment in field axes |
| AutonDrive.Journey.SegmentsOverRun | steamworks/src/commands/drive/auton/drive.cc:67-103 | Over every run the end distance is the prefix sum of the started segments, the iterator never goes back or past the end and moves by at most one, and the strafe and forward factors are the sine and cosine of the angle of the last started segment |
| AutonDrive.Journey.SegmentRule | steamworks/src/commands/drive/auton/drive.cc:99-103 | A tick starts the next segment exactly when the end of the active one is reached |
| AutonDrive.Journey.SegmentTracking | steamworks/src/commands/drive/auton/drive.cc:95-103 | With monotone readings that start in the first segment and advance by no more than any segment, the active segment is the one containing the position |
| AutonDrive.Journey.StableCountIff | steamworks/src/commands/drive/auton/drive.cc:144-148 | In every run the settle count is the length of the run of ticks inside the band that ends now |
| AutonDrive.Journey.FinishesIff | steamworks/src/commands/drive/auton/drive.cc:144-153 | Whatever the robot does, the command finishes in a tick exactly when it and the two before are inside the band and the one before those is not |
| AutonDrive.Journey.Approach | steamworks/src/commands/drive/auton/drive.cc:105-122 | The robot never overshoots the target band, gains the minimal advance each tick until it is in it, and stays in it |
| AutonDrive.Journey.Terminates | steamworks/src/commands/drive/auton/drive.cc:88-154 | In closed loop the command finishes within the start-up delay plus the ticks minimal advances need plus three, inside the band and not before |
| AutonDrive.Drive.Create | steamworks/src/commands/drive/auton/drive.cc:24-43 | Refuses a configuration without segments, otherwise sets up the profile |
| AutonDrive.Drive.Initialize | steamworks/src/commands/drive/auton/drive.cc:48-55 | Starts a journey at the full distance with the iterator at the first segment |
| AutonDrive.Drive.StartNextSegment | steamworks/src/commands/drive/auton/drive.cc:67-82 | Takes direction and length of the next segment, does nothing at the end |
| AutonDrive.Drive.Execute | steamworks/src/commands/drive/auton/drive.cc:88-133 | One tick: counts the delay, or measures, advances the segment and drives the swerve drive with the profile speed and the command's own dead zone |
| AutonDrive.Drive.SpeedFor | steamworks/src/commands/drive/auton/drive.cc:105-122 | Computes the signed profile speed |
| AutonDrive.Drive.IsFinished | steamworks/src/commands/drive/auton/drive.cc:139-154 | Finishes on timeout or in the tick that completes three settled ticks in a row |
| Sma.LiveOverwrite | sidewinder/src/oi/sma.cc:43-53 | Overwriting the oldest value of a full ring drops it and appends the new one, wrapped or not |
| Sma.LiveWrite | sidewinder/src/oi/sma.cc:51-53 | Writing in the free slot appends to the live region, wrapped or not |
| Sma.MeanWithin | sidewinder/src/oi/sma.cc:59-60 | The mean lies between the least and the greatest value, so equal inputs give that input |
| Sma.SMA.Size | sidewinder/src/oi/sma.cc:25-31 | The number of values kept is the smaller of period and number of inputs |
| Sma.SMA.Add | sidewinder/src/oi/sma.cc:33-61 | After any inputs the live region is the last period inputs in order, the cached total is their sum, and the result is their mean |
| DeviceRegistry.JerrysGrapherIndexOfBundleWithID | bdc/lib/JerrysGrapher.cpp:9-17 | Returns the first entry of that kind and number, or -1 |
| DeviceRegistry.TalonKeepsAgreement | bdc/lib/RIOUtils.cpp:3-27 | Creating a Talon keeps list, maps and heap in agreement |
| DeviceRegistry.InputKeepsAgreement | bdc/lib/RIOUtils.cpp:28-53 | So does making a pin an input, from either earlier use |
| DeviceRegistry.OutputKeepsAgreement | bdc/lib/RIOUtils.cpp:55-76 | So does making a pin an output, and the index erased is never -1 |
| DeviceRegistry.OutputKeepsOrder | bdc/lib/RIOUtils.cpp:59-64 | Making a pin an output removes its entry and keeps all others in order |
| DeviceRegistry.RunAgrees | bdc/lib/RIOUtils.cpp:3-76 | In every run list, maps and heap agree: one entry per input pin and per Talon, nothing dangles, nothing leaks; no operation of any run erases at index -1 |
| DeviceRegistry.PinUseIff | bdc/lib/RIOUtils.cpp:28-76 | In every run a pin is an input exactly when the last operation on it made it one, and likewise an output |
| DeviceRegistry.StepFrame | bdc/lib/RIOUtils.cpp:3-76 | An operation leaves every other pin and Talon alone, keeps list entries in place unless it makes an output, and changes nothing if the device is there |
| DeviceRegistry.PinLookup | bdc/lib/JerrysGrapher.cpp:9-17 | In every reachable state a pin is found exactly when it is an input, by its only entry, which points at the live input |
| DeviceRegistry.TalonEntries | bdc/lib/RIOUtils.cpp:16-20 | In every reachable state each Talon has exactly one entry and every Talon entry belongs to a created Talon |
| DeviceRegistry.CreatedIff | bdc/lib/RIOUtils.cpp:3-27 | In every run the Talons are exactly those that an operation created |
| DeviceRegistry.TalonLookup | bdc/lib/JerrysGrapher.cpp:9-17 | In every run with Talon numbers from 0 to 255 a Talon is found exactly when it was created, by its only entry, which points at the live Talon |
| DeviceRegistry.LookupFindsFirst | bdc/lib/JerrysGrapher.cpp:9-17 | In every run a lookup finds the first created Talon with that low byte and fails exactly when there is none |
| DeviceRegistry.TalonLookupIff | bdc/lib/JerrysGrapher.cpp:9-17 | A created Talon is found by its number exactly when the number is in 0 to 255 and no Talon with the same low byte was created before it |
| DeviceRegistry.WideTalonNumberAliases | bdc/lib/RIOUtils.cpp:16-20 | With Talons 256 and 0 the lookup of 0 returns 256 |
| DeviceRegistry.PinFoundIff | bdc/lib/RIOUtils.cpp:42-46 | The entry of a new input pin can be found again exactly when its number fits in a byte, which the pins 0 to 9 that the menus accept do |
| DeviceRegistry.Registry.PossiblyCreateTalon | bdc/lib/RIOUtils.cpp:3-27 | Returns the live Talon of that number, creating and listing it once |
| DeviceRegistry.Registry.PossiblyCreateDigitalInput | bdc/lib/RIOUtils.cpp:28-53 | Returns the live input of the pin, deleting an output and listing the input if needed; keeps the agreement for pins in a byte |
| DeviceRegistry.Registry.PossiblyCreateDigitalOutput | bdc/lib/RIOUtils.cpp:55-76 | Returns the live output of the pin, deleting an input and its entry, which is always found; keeps the agreement for pins in a byte |
| Cannon.AlwaysSafe | avenger/src/subsystems/cannon.cc:24-49 | In every interleaving the barrel is in [-1, 7], exactly the current barrel is open while firing and none otherwise, timers expire only while firing, no event writes outside the solenoids, and the barrel is determined by the accepted shots since the last accepted reset |
| Cannon.FireOpens | avenger/src/subsystems/cannon.cc:24-34 | The k-th accepted Fire since the last accepted Reset opens barrel k mod 8 and only that one; a Fire during a shot does nothing |
| Cannon.Cannon.Fire | avenger/src/subsystems/cannon.cc:24-34 | The method is the Fire transition on the solenoid array |
| Cannon.Cannon.CloseSolenoid | avenger/src/subsystems/cannon.cc:36-42 | The method is the timer transition |
| Cannon.Cannon.Reset | avenger/src/subsystems/cannon.cc:44-49 | The method is the Reset transition |
| VisionLink.VisionIsHistory | steamworks/src/subsystems/deadeye.cc:69-89 | The robot has a target exactly when the last message that is no error is a solution, and each number comes from the last message of the kind that carries it |
| VisionLink.RunIsSafe | deadeye/src/deadeye.cc:24-78 | In every run capture implies a connected camera and boiler as the last recognised mode; modes and answers are of configured or requested modes; all the robot heard was sent |
| VisionLink.ChannelsOverRun | deadeye/src/link.cc:29-47 | In every run what can reach the Jetson is exactly what the robot requested, and what the robot has heard is exactly what was delivered, in that order |
| VisionLink.TargetIsReal | steamworks/src/subsystems/deadeye.cc:55-90 | End to end under loss, duplication and reordering, a believed target is one solution really sent, in a mode configured or requested by the robot |
| VisionLink.SolutionsComeFromMode | deadeye/src/deadeye.cc:26-44 | Every solution ever sent comes from an iteration in the mode with its code, configured or already requested by then, and for boiler with a connected and capturing camera |
| VisionLink.RequestIsServed | steamworks/src/subsystems/deadeye.cc:154-179 | The iteration after a delivered request is in the requested mode, which is boiler or gear, captures exactly in boiler mode if connected, and answers with that code or no target |
| VisionLink.ConnectedIff | deadeye/src/deadeye.cc:51-78 | In every run each camera is connected exactly when its hardware answered in some iteration that entered its mode |
| VisionLink.BoilerAnswer | deadeye/src/boiler/boiler_camera.cc:191-223 | A boiler iteration of any run reports the target in its frame exactly when some iteration up to it connected the camera, otherwise no target |
| VisionLink.GearAnswer | deadeye/src/deadeye.cc:123-160 | A gear iteration of any run reports azimuth and height of its target exactly when some iteration up to it connected the gear camera, otherwise no target |
| VisionLink.IterationSends | deadeye/src/deadeye.cc:24-46 | Every iteration leaves the Jetson in the mode of the link and sends exactly its one answer, none outside boiler and gear mode |
| VisionLink.CameraGuardSuffices | deadeye/src/boiler/boiler_camera.cc:191-195 | In every reachable boiler iteration the guard refuses exactly when connection or capture is missing |
| VisionLink.FailedConnectionSticks | deadeye/src/deadeye.cc:26-33 | Over any stretch of a run in which no iteration sees another mode, a boiler camera that failed to connect stays unconnected and every iteration reports no target |
| VisionLink.OverwrittenRequestDoesNotReconnect | deadeye/src/deadeye.cc:26-33 | A run in which a gear request is overwritten by a boiler request before the next iteration, and the camera stays unconnected although its hardware answers |
| VisionLink.RobotDeadeye.Receive | steamworks/src/subsystems/deadeye.cc:67-90 | One received message extends the history and keeps the fields equal to the function of the history |
| VisionLink.RobotDeadeye.HasTarget | steamworks/src/subsystems/deadeye.cc:132-135 | True exactly when the last received message that is no error is a solution |
| VisionLink.RobotDeadeye.GetAzimuthError | steamworks/src/subsystems/deadeye.cc:100-103 | The azimuth of the last solution received plus the configured correction |
| VisionLink.RobotDeadeye.GetStrafeError | steamworks/src/subsystems/deadeye.cc:108-111 | The azimuth of the last solution received |
| VisionLink.RobotDeadeye.GetCenterlineError | steamworks/src/subsystems/deadeye.cc:116-119 | The centerline of the last boiler solution received |
| VisionLink.RobotDeadeye.GetTargetHeight | steamworks/src/subsystems/deadeye.cc:124-127 | The height of the last gear solution received |
| VisionLink.BoilerCamera.Connect | deadeye/src/boiler/boiler_camera.cc:40-124 | Becomes connected exactly when it was or the hardware calls succeed |
| VisionLink.BoilerCamera.StartCapture | deadeye/src/boiler/boiler_camera.cc:147-172 | Starts only when connected |
| VisionLink.BoilerCamera.StopCapture | deadeye/src/boiler/boiler_camera.cc:176-186 | Ends not capturing |
| VisionLink.JetsonDeadeye.SwitchMode | deadeye/src/deadeye.cc:51-78 | Applies a mode to both cameras; an unknown mode changes none |
| VisionLink.JetsonDeadeye.Iterate | deadeye/src/deadeye.cc:24-46 | One loop turn applies a changed mode and sends the answer of that mode |
| BoilerFrame.SelectTargets | deadeye/src/boiler/boiler_frame.cc:34-78 | Picks the first admissible contour and the first later admissible one aligned with it |
| BoilerFrame.AdmissibleIff | deadeye/src/boiler/boiler_frame.cc:44-55 | Admissible means long enough and with a width between the two multiples of its height, limits included |
| BoilerFrame.AlignedIff | deadeye/src/boiler/boiler_frame.cc:65-73 | Aligned means that the middle of the lower rectangle lies between the edges of the upper one |
| BoilerFrame.HalfMeaning | deadeye/src/boiler/boiler_frame.cc:112-114 | Halving drops the fraction toward zero |
| BoilerFrame.UpperIsLargest | deadeye/src/boiler/boiler_frame.cc:29-63 | After sorting, the upper target is an admissible contour of greatest perimeter |
| BoilerFrame.LowerIsLargest | deadeye/src/boiler/boiler_frame.cc:65-78 | A lower target exists exactly when some other admissible contour is aligned, and is one of greatest perimeter among those |
| BoilerFrame.BoilerFrame.FindTargets | deadeye/src/boiler/boiler_frame.cc:18-132 | The whole outcome over the multiset of contours: success, both targets, both errors, and what is left unchanged on failure |
| Expo.Create | sidewinder/src/oi/expo.cc:7-18 | Refuses settings out of range; otherwise the divisor is positive and full stick is normalised to one |
| Expo.OddAndDead | sidewinder/src/oi/expo.cc:22-28 | The curve is odd and zero on the closed dead band |
| Expo.Increasing | sidewinder/src/oi/expo.cc:22-28 | It never decreases, and increases strictly exactly between positions not both in the dead band |
| Expo.FullStick | sidewinder/src/oi/expo.cc:16-28 | Full stick gives full output both ways |
| Expo.ShareOfFull | sidewinder/src/oi/expo.cc:22-28 | For every scale the output beyond the dead band is the curve there as a share of the curve at full stick |
| Expo.CurveBlends | sidewinder/src/oi/expo.cc:16-27 | The unnormalised curve blends the cubic and the straight line in proportion to the scale |
| Expo.LinearAndCubic | sidewinder/src/oi/expo.cc:26-27 | Scale zero is linear beyond the band, scale one a pure cubic |
| Expo.NeverAmplifies | sidewinder/src/oi/expo.cc:22-28 | On the stick's range the output has the sign of the input and is no larger |
| ReleaseGear.DriftBounded | steamworks/src/commands/gear/release.cc:36-43 | A run of n steady readings bounds the total drift by 3n |
| ReleaseGear.AtRestIff | steamworks/src/commands/gear/release.cc:36-43 | Ten steady readings in a row are exactly a count of ten, and then the pivot has drifted by at most 30 |
| ReleaseGear.AtRestMeans | steamworks/src/commands/gear/release.cc:9-43 | At rest means ten readings in a row, each within 3 of the one before, the first counting from zero |
| ReleaseGear.ReleaseGear.IsFinished | steamworks/src/commands/gear/release.cc:31-46 | Finishes exactly when the last ten readings were each within 3 of the one before, so within 30 overall |

## Left out

- Floating-point rounding, infinities and NaN: numbers are ideal reals, and divisions by zero are excluded by preconditions.
- SwerveMath.SwerveMath.Drive: the repeated `wheel_angles` and `wheel_mags` outputs are listed by index instead of by their named fields, and radians are replaced by degrees.
- `SetWheelAngles`: rewrites only the wrapped history and has no caller, so it is not a step of a run.
- SwerveDrive.SwerveDrive.SetBrake: does not model the `brake_ang_` values, which are only logged.
- Calibration files, encoder reading, crab driving and the mode switch of the drive Talons: thin calls into the motor library.
- SwerveMath.CalcRotationVectors: requires that no wheel stands on the rotation point, where the code computes 0/0.
- SwerveMath.SwerveMath.constructor: requires the same of the center and of the shooter point.
- AutonDrive.Drive.Create: requires non-zero accelerations and maximum speed, as the constructor does.
- AutonDrive.Drive.constructor: the non-zero accelerations and speed it requires are not checked by the code, which would compute an infinite or undefined ramp.
- Integer overflow of the truncated distance sum: integers are unbounded.
- Sma.SMA.Add: the pointers into the window are indices, with -1 for the null pointer.
- DeviceRegistry.Registry.PossiblyCreateDigitalOutput: objects are entries of a heap map and pointers are numbers, so `new` and `delete` are map updates; for pins outside 0 to 255, which the menus never pass, the agreement is not promised and ends the sequence of calls.
- The grapher thread beyond its list entry and the lookup: it shares the list without synchronisation.
- BoilerFrame.SortByPerimeter: the sort builds a new sequence instead of sorting in place; only sortedness and the multiset are promised, as by `std::sort`, so the order of equal perimeters is open.
- Image processing before the contours, snapshots and the gear frame: library calls, and the gear frame indexes its rectangles by contour number.
- Socket errors and malformed datagrams: every datagram carries three integers, and the link receives only what the robot sends.
- ReleaseGear.ReleaseGear.IsFinished: promises nothing about the answers after the first that is true, when the command is over.
- Command scheduling, configuration files, logging and telemetry, the shooter solution table, health check and one-line ramp controllers: plumbing, data that is not shown, or easy members only.
