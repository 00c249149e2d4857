# ASME rover core in Dafny

This project models the sequential logic of a small four-wheeled rover's
control code, in five parts:

- **Sensor decoding.** The LSM303 accelerometer/magnetometer and L3GD20
  gyroscope drivers turn the six-byte register dumps they read over I2C
  into signed counts, then into physical units:
  - acceleration in m/s², as 12-bit little-endian counts;
  - magnetic field in µT, as 16-bit big-endian counts, with different gains
    on x/y and on z;
  - angular rate in rad/s, as 16-bit little-endian counts.
- **Motors.** A motor maps a speed in [-1, 1] onto a 50 Hz PWM duty cycle
  between 5 % and 10 %, with 7.5 % meaning stop. It can be mounted
  inverted, and it starts out stopped.
- **Rover.** The rover turns a body-frame command into four wheel speeds.
  The command is a 2D linear velocity plus an angular velocity. First, a
  sideways (x) component is discarded unless the wheels are mecanum. Then
  the command is divided by its combined demand |x| + |y| + |r·ω| when that
  exceeds 1. Finally, it is mixed into front-left, front-right, back-left
  and back-right speeds for the four motors.
- **Vec2.** A mutable 2D vector with:
  - operators that build new vectors (`+`, `*`, `/`);
  - in-place operators (`+=`, `-=`, `*=`, `/=`, indexed set);
  - an indexed get that raises on a bad key;
  - equality and squared length.

Modules follow the source files:

| module / file | source |
|---|---|
| `Exceptions` (exceptions.dfy) | the exceptions the code raises, carried as values |
| `SensorBytes` (sensor_bytes.dfy) | bytes, 16-bit words and two's complement shared by the decoders |
| `Lsm303` (lsm303.dfy) | Adafruit_LSM303.py |
| `L3gd20` (l3gd20.dfy) | Adafruit_L3GD20.py |
| `Motors` (motor.dfy) | Motor.py |
| `Utilities` (utilities.dfy) | utilities.py |
| `Rovers` (rover.dfy) | Rover.py |

The decoders are pure, so they are functions over byte sequences. A `Motor`
is a class whose `duty` field records the PWM output the driver would
command. `Vec2` is a class with `real` fields `x` and `y`. `Rover` is a
class holding four motors. Its `SetVelocities` method works step by step, as
the source does:
- it zeroes `linear.x` in the caller's vector;
- it divides that vector in place;
- it rescales the angular velocity;
- it commands the four motors.

The method is proved against the pure specification `Decompose` (guard, then
saturate, then mix). The properties of the command path are lemmas about
that specification.

Real-valued quantities are Dafny `real`: exact rational arithmetic. This
idealises the IEEE double rounding of the Python code. Statements such as "the
scaled demand is exactly 1" or "multiplying and then dividing restores the
vector" hold for the model, not bit-for-bit for floats.

Several source lines are not valid Python as written:
- `def class` in Motor.py, Rover.py and utilities.py;
- `&&` and `||` in utilities.py and Rover.py;
- `Math.abs` in Rover.py;
- a missing `self` in `set_velocities`;
- the unqualified `get_duty_cycle` call in `set_speed`;
- the unqualified class attribute `wheel_type` in `set_velocities`, which
  would raise NameError; the model reads it as `self.wheel_type`, the
  `Rover`'s `wheelType` field;
- `import Motor.py` and `import utiliies.py` at the top of Rover.py; the
  model imports the `Motors` and `Utilities` modules.

The model follows what these lines plainly mean.

`set_velocities` rewrites the caller's `Vec2` in place: it first zeroes x,
then divides the vector by the combined demand. `SetVelocities` states the
vector's final components.

The motors' own clamp to [-1, 1] never changes a speed that
`set_velocities` produces. `Rovers.Decompose` ensures every wheel speed is
already within [-1, 1], and `Rovers.MotorClampInactive` proves the motor
clamp leaves each one unchanged.

## Model

| member | source | states |
|---|---|---|
| SensorBytes.Word | Adafruit_LSM303.py:97 | the byte pair forms an unsigned 16-bit word whose high and low bytes are exactly the two inputs |
| SensorBytes.Signed16 | Adafruit_L3GD20.py:63 | two's-complement reading: the result is in [-32768, 32767], congruent to the word modulo 65536, and negative exactly when the word is at least 32768 |
| SensorBytes.Unsigned16 | Adafruit_LSM303.py:105 | the encoding of a signed 16-bit value is an unsigned word in [0, 65536) |
| SensorBytes.Signed16Unique | Adafruit_LSM303.py:98 | range and congruence modulo 65536 determine the signed value, so the sign adjustment is the only possible one |
| SensorBytes.Signed16OfUnsigned16 | Adafruit_LSM303.py:105 | decoding the encoding of any signed 16-bit value gives it back |
| SensorBytes.WordOfBytes | Adafruit_LSM303.py:104 | splitting a word into high and low bytes and joining them gives the word back |
| Lsm303.Accel12 | Adafruit_LSM303.py:96-99 | the accelerometer count (low byte at idx, high byte at idx+1) lies in [-2048, 2047] and is negative exactly when the high byte is at least 128 |
| Lsm303.Accel12IsFloor | Adafruit_LSM303.py:97-99 | the count is the floor of the signed little-endian value lo + 256·hi divided by 16, as the arithmetic shift on negatives gives |
| Lsm303.Mag16 | Adafruit_LSM303.py:103-105 | the magnetometer count (high byte at idx, low byte at idx+1) lies in [-32768, 32767] and is negative exactly when the high byte is at least 128 |
| Lsm303.Mag16RoundTrip | Adafruit_LSM303.py:104-105 | any signed 16-bit value encoded big-endian as v mod 65536 decodes back to exactly v |
| Lsm303.AccelToMs2 | Adafruit_LSM303.py:61-62 | at 1 milli-g per count, 1000 counts are one standard gravity (9.80665 m/s²); the result is zero, positive or negative exactly as the count is |
| Lsm303.AccelToMs2Additive | Adafruit_LSM303.py:112 | the conversion is additive, so with its value at 1000 counts it is the linear map of every count |
| Lsm303.MagToMicrotesla | Adafruit_LSM303.py:63-65 | one gauss worth of counts at the axis's gain converts to 100 µT; the result is zero, positive or negative exactly as the count is |
| Lsm303.MagGaussCalibration | Adafruit_LSM303.py:63-65 | 1100 counts at the x/y gain and 980 counts at the z gain are each one gauss, 100 µT |
| Lsm303.MagToMicroteslaAdditive | Adafruit_LSM303.py:118-120 | at a fixed gain the conversion is additive, so with its value at one gauss it is the linear map of every count |
| Lsm303.ReadAccel | Adafruit_LSM303.py:110-114 | the accelerometer triple is taken from offsets 0, 2 and 4, each scaled to m/s²; a list shorter than six bytes raises IndexError, and only then |
| Lsm303.ReadMag | Adafruit_LSM303.py:117-120 | the magnetometer triple is taken from offsets 0, 2 and 4; x and y are divided by 1100 and z by 980, all then times 100; a short list raises IndexError, and only then |
| Lsm303.Read | Adafruit_LSM303.py:108-122 | the reading succeeds exactly when both lists hold six bytes, and otherwise raises IndexError; it is then the accelerometer sample followed by the magnetometer sample |
| Lsm303.ReadAccelBounds | Adafruit_LSM303.py:97-99 | every accelerometer component lies within the 12-bit range scaled to m/s² |
| Lsm303.AccelToMs2Bounds | Adafruit_LSM303.py:112 | conversion of a 12-bit count stays within the scaled 12-bit range |
| Lsm303.ReadMagBounds | Adafruit_LSM303.py:118-120 | every magnetometer component, converted back at its axis's gain, lies within the 16-bit range |
| Lsm303.ReadZeros | Adafruit_LSM303.py:110-122 | all-zero byte lists read as zero acceleration and zero field |
| L3gd20.Gyro16 | Adafruit_L3GD20.py:54-63 | low byte at idx, high byte at idx+1; a word below 32768 is returned unchanged and otherwise reduced by 65536; the result lies in [-32768, 32767] and is negative exactly when the high byte is at least 128 |
| L3gd20.Gyro16RoundTrip | Adafruit_L3GD20.py:59-63 | any signed 16-bit value encoded little-endian as v mod 65536 decodes back to exactly v |
| L3gd20.Gyro16IsSwappedMag16 | Adafruit_L3GD20.py:59-63 | gyro16 on (lo, hi) equals the magnetometer's mag16 on (hi, lo): only the byte order differs |
| L3gd20.Accel12IsGyro16Shifted | Adafruit_LSM303.py:97-99 | the accelerometer count is the gyroscope-order signed value rounded down to a multiple of 16, divided by 16 |
| L3gd20.GyroToRadPerSec | Adafruit_L3GD20.py:29-33 | at 8.75 millidegrees per second per count, 8000 counts are 70 degrees per second; the result is zero, positive or negative exactly as the count is |
| L3gd20.GyroToRadPerSecAdditive | Adafruit_L3GD20.py:70-72 | the conversion is additive, so with its value at 8000 counts it is the linear map of every count |
| L3gd20.Read | Adafruit_L3GD20.py:65-73 | the rates at offsets 0, 2 and 4, each times 0.00875·0.017453293; a short list raises IndexError, and only then |
| L3gd20.ReadZeros | Adafruit_L3GD20.py:70-72 | an all-zero byte list reads as (0, 0, 0) |
| L3gd20.ReadRoundTrip | Adafruit_L3GD20.py:59-72 | reading the little-endian encodings of three signed 16-bit rates gives back each rate converted to rad/s |
| L3gd20.GyroAt | Adafruit_L3GD20.py:59 | the decode at idx depends only on the two bytes at idx and idx+1 |
| Motors.Clamp | Motor.py:43-47 | the speed limited to [-1, 1]: unchanged inside, 1 above, -1 below |
| Motors.DutyCycle | Motor.py:38-51 | the duty cycle always lies in [5, 10]; it is 10 at speed 1 and above, 5 at speed -1 and below, and 7.5 at speed 0 |
| Motors.SpeedOf | Motor.py:51 | the inverse of the linear map, from a duty cycle in [5, 10] back to a speed in [-1, 1] |
| Motors.SpeedOfDutyCycle | Motor.py:49-51 | on [-1, 1] the map from speed to duty cycle is inverted by SpeedOf, so distinct speeds give distinct duty cycles |
| Motors.DutyCycleSaturates | Motor.py:44-47 | speeds above 1 give the duty of speed 1, and speeds below -1 the duty of speed -1 |
| Motors.DutyCycleMonotone | Motor.py:44-51 | the duty cycle is non-decreasing in speed |
| Motors.DutyCycleSymmetric | Motor.py:51 | duty(s) + duty(-s) = 15 = DutyMin + DutyMax for every s |
| Motors.Oriented | Motor.py:60-61 | the speed after the inversion step; what it means for the output is stated by Motors.InvertedMirrorsDuty (an inverted motor's duty is the plain duty mirrored about DutyZero) and by Motors.Motor.SetSpeed |
| Motors.InvertedMirrorsDuty | Motor.py:60-64 | an inverted motor's duty cycle is the plain duty cycle mirrored about DutyZero, DutyMin + DutyMax - duty(speed); a plain motor's is duty(speed) |
| Motors.Motor.constructor | Motor.py:23-36 | the new motor keeps its pin and inversion flag, runs at 50 Hz, and outputs DutyZero (stopped) |
| Motors.Motor.SetSpeed | Motor.py:53-65 | the commanded duty is duty(-speed) when inverted, that is 15 - duty(speed), and duty(speed) otherwise; it lies in [5, 10] |
| Utilities.Vec2.constructor | utilities.py:12-14 | the components are the arguments, (0, 0) by default |
| Utilities.Vec2.Get | utilities.py:47-53 | key 0 gives x and key 1 gives y; any other key raises, and only those keys succeed |
| Utilities.Vec2.Set | utilities.py:55-61 | only the addressed component changes, to the value given; any other key raises and changes nothing |
| Utilities.Vec2.Add | utilities.py:16-17 | a new vector (x₁+x₂, y₁+y₂); neither operand is modified |
| Utilities.Vec2.AddInPlace | utilities.py:19-23 | the receiver becomes its old value plus the other's old value; nothing but the receiver changes |
| Utilities.Vec2.SubtractInPlace | utilities.py:25-29 | the receiver becomes its old value minus the other's old value; nothing but the receiver changes |
| Utilities.Vec2.Mul | utilities.py:34-35 | a new vector with both components times val |
| Utilities.Vec2.Div | utilities.py:31-32 | a new vector with both components divided by a nonzero val |
| Utilities.Vec2.MulInPlace | utilities.py:42-45 | both components are multiplied by val in place |
| Utilities.Vec2.DivInPlace | utilities.py:37-40 | both components are divided by a nonzero val in place |
| Utilities.Vec2.Eq | utilities.py:66-67 | equality holds exactly when both indexed components agree |
| Utilities.Vec2.Ne | utilities.py:68-69 | inequality is the exact negation of equality |
| Utilities.Vec2.LengthSquared | utilities.py:71-72 | x² + y² is never negative and is zero exactly for the vector (0, 0) |
| Utilities.Square | utilities.py:72 | `a ** 2` is never negative and is zero only at zero |
| Utilities.EqIsEquivalence | utilities.py:66-67 | vector equality is reflexive, symmetric and transitive |
| Utilities.ScaleRoundTrip | utilities.py:37-45 | `*=` then `/=` by the same nonzero value restores both components |
| Utilities.AddSubtractRoundTrip | utilities.py:19-29 | `+=` then `-=` with a different vector restores the receiver and leaves the other vector unchanged |
| Utilities.AddInPlaceAgreesWithAdd | utilities.py:16-23 | the in-place sum equals the sum built as a new vector, also when a vector is added to itself |
| Rovers.Abs | Rover.py:40 | the absolute value is non-negative and is the argument or its negation |
| Rovers.Combined | Rover.py:40 | the combined demand is non-negative and bounds each of its three terms |
| Rovers.DiscardsX | Rover.py:34 | the x component is discarded when the wheels are not mecanum and x is nonzero; discarding it strictly lowers the combined demand |
| Rovers.Guard | Rover.py:34-36 | y and ω are kept; x is kept for mecanum wheels and becomes 0 for any other wheel type |
| Rovers.Scale | Rover.py:41-43 | the divisor is at least 1 and at least the combined demand |
| Rovers.Saturate | Rover.py:40-43 | a command whose combined demand is at most 1 is left unchanged |
| Rovers.SaturateWithinBudget | Rover.py:40-43 | after saturation the combined demand is at most 1, and exactly 1 when scaling happened |
| Rovers.SaturatedDemand | Rover.py:42-43 | dividing every component by the positive combined demand gives combined demand 1 |
| Rovers.SaturateScalesUniformly | Rover.py:41-43 | saturation divides x, y and ω by the same factor, so their ratios are kept |
| Rovers.Mix | Rover.py:45-48 | front-left + front-right = back-left + back-right = 2x, and every wheel speed is within [-1, 1] when the combined demand is at most 1 |
| Rovers.UnmixOfMix | Rover.py:45-48 | the mix is invertible: the command can be recovered from the four wheel speeds |
| Rovers.Decompose | Rover.py:34-48 | `set_velocities` as a value (guard, saturate, mix); every wheel speed passed to a motor has absolute value at most 1 |
| Rovers.NonMecanumPairsOppose | Rover.py:34-48 | without mecanum wheels, front-left = -front-right and back-left = -back-right |
| Rovers.UnsaturatedIsRawMix | Rover.py:40-48 | within the budget the outputs are the raw mix of the guarded command |
| Rovers.ZeroCommandStops | Rover.py:45-48 | zero linear and angular input gives all four wheel speeds 0 |
| Rovers.FullSpeedAlongY | Rover.py:41-48 | input (0, 1) with ω = 0 is exactly on budget and gives (-1, 1, 1, -1) |
| Rovers.OverBudgetIsScaled | Rover.py:40-48 | the mecanum command (0.8, 0.8, 0.8) has demand 2.4 and gives the raw mix divided by 2.4 |
| Rovers.MotorClampInactive | Rover.py:45-48 | the motors' own clamp never changes a wheel speed from the mix |
| Rovers.Rover.constructor | Rover.py:14-20 | a leg-wheeled rover with four distinct, non-inverted motors on P9_14, P9_16, P8_13 and P8_19, all stopped |
| Rovers.Rover.SetVelocities | Rover.py:28-48 | x is discarded (and `degraded` reported) exactly when the wheels are not mecanum and x is nonzero; the caller's vector ends as the saturated guarded command; each motor's duty is the duty cycle of its wheel speed from the mix |

## Left out

- I2C transactions are not modelled: the `write8` register setup in both sensor constructors, `setMagGain`, and the `readList` bus reads. The byte lists those reads return are inputs to `Lsm303.Read` and `L3gd20.Read`.
- The Adafruit_BBIO PWM calls (`PWM.start`, `PWM.set_duty_cycle`) are a foreign library. The duty they would command is recorded in `Motor.duty`, and the frequency in `Motor.frequency`.
- `Motor.cleanup` and `Rover.cleanup` only call `PWM.stop` and `PWM.cleanup`, so they are not modelled.
- Adafruit_10DOF.py (attitude and altitude fusion) is not part of this model: it is transcendental floating-point maths (atan2, sqrt, sin, cos, pow) over live sensor reads.
- Tcp_client.py is socket I/O and is not part of this model.
- The `__main__` test loops are not modelled: console input, printing and sleeping.
- The warning `set_velocities` prints when it discards x is modelled only as the `degraded` result of `Rovers.Rover.SetVelocities`.
- `Vec2.__str__` (float formatting) and `length`, `normalize` and `normalized` (square root) are not modelled.
- IEEE double rounding is not modelled; every real quantity is an exact `real`.
- The integer constant `GAUSS_TO_MICROTESLA = 100` is the real 100.0. This makes no difference, since it multiplies a float.
- Bitwise `|` of a shifted high byte and a low byte is written as addition. The two occupy disjoint bits, so the results agree.
- `>> 4` is written as division by 16, which rounds toward negative infinity.
- Lsm303.Accel12: requires `idx + 1 < |blist|`. An index past the end, which raises IndexError in Python, is modelled only at the `read` level. Negative (from-the-end) Python indices are not modelled.
- Lsm303.Mag16: the same indexing precondition as Accel12.
- L3gd20.Gyro16: the same indexing precondition as Accel12.
- Utilities.Vec2.Div: requires a nonzero divisor. Python's ZeroDivisionError is not modelled as a value.
- Utilities.Vec2.DivInPlace: requires a nonzero divisor, as Div does.
- Utilities.Vec2.Div: the fields are always `real`. In the Python 2 source, `__setitem__` stores its value without `float(...)`, so an int component divided by an int divisor is floor division there (`v[0] = -3; v / 2` gives x = -2). That int path is not modelled; the rover only ever divides by a float.
- Utilities.Vec2.DivInPlace: the same Python 2 int floor division as Div is not modelled (`v[0] = 3; v /= 2` leaves x = 1 in the source, 1.5 here).
- Utilities.Vec2.Set: the stored value is a `real`; an int stored by `__setitem__` keeps its int type in the source, which only matters for the int floor division above.
- Utilities.Vec2.AddInPlace: does not return the receiver. The in-place operators' `return self` only rebinds the caller's name to the same object.
- Utilities.Vec2.SubtractInPlace: does not return the receiver, as AddInPlace.
- Utilities.Vec2.MulInPlace: does not return the receiver, as AddInPlace.
- Utilities.Vec2.DivInPlace: does not return the receiver, as AddInPlace.
- Utilities.Vec2.Get: the raised exception is `InvalidKey`. The source raises a plain `Exception("Invalid key to Vec2")`.
- Rovers.Rover.SetVelocities: requires `Valid()`, meaning four distinct, non-inverted motors. That is the only configuration the constructor builds.
- Rovers.Rover: `wheel_type` is a class attribute in the source. Here it is a constant field, fixed at "leg" by the constructor.
