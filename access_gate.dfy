/**
 * The globals and the control loop of main/SRC/main.c, in place: the 6-byte
 * buffer entered_value, its fill index valIndex, the lock flag system_active,
 * and the outputs the loop drives (the two status LEDs and the fan). Every
 * method is proved to follow the value-level specification in AccessSpec.
 */
module AccessGate {
  import opened AccessSpec

  class Gate {
    /** char entered_value[6] */
    var enteredValue: array<char>
    /** uint8_t valIndex; Valid keeps it at most 5, so it never wraps. */
    var valIndex: nat
    /** bool system_active */
    var systemActive: bool
    /** Last levels written to ACCESS_GRANTED_PIN and ACCESS_DENIED_PIN. */
    var grantedLed: nat
    var deniedLed: nat
    /** Last percentage passed to motor_set_speed_percent (also g_motor_speed_percent). */
    var fanPercent: nat

    /** The C-level shape of the buffer: in bounds and NUL-terminated at valIndex, no NUL before it. */
    ghost predicate Terminated()
      reads this, enteredValue
    {
      enteredValue.Length == BufferSize &&
      valIndex <= MaxEntry &&
      enteredValue[valIndex] == Nul &&
      forall i :: 0 <= i < valIndex ==> enteredValue[i] != Nul
    }

    /** The object invariant between loop iterations. */
    ghost predicate Valid()
      reads this, enteredValue
    {
      Terminated() && Inv(View())
    }

    /** What the gate holds, as the specification sees it. */
    function View(): GateView
      reads this, enteredValue
      requires valIndex <= enteredValue.Length
    {
      GateView(enteredValue[..valIndex], systemActive, grantedLed, deniedLed, fanPercent)
    }

    /** The state on entry to the loop: zeroed buffer, locked, LEDs and fan off. */
    constructor ()
      ensures Valid() && fresh(enteredValue)
      ensures View() == Boot()
      ensures forall i :: 0 <= i < enteredValue.Length ==> enteredValue[i] == Nul
    {
      enteredValue := new char[BufferSize](_ => Nul);
      valIndex := 0;
      systemActive := false;
      grantedLed, deniedLed := Low, Low;
      fanPercent := FanOff;
    }

    /** entered_value[valIndex++] = key; entered_value[valIndex] = '\0'; */
    method Append(key: char)
      requires Terminated() && valIndex < MaxEntry && key != Nul
      modifies this`valIndex, enteredValue
      ensures Terminated()
      ensures View() == old(View()).(entered := old(View().entered) + [key])
    {
      enteredValue[valIndex] := key;
      valIndex := valIndex + 1;
      enteredValue[valIndex] := Nul;
      assert enteredValue[..valIndex] == old(enteredValue[..valIndex]) + [key];
    }

    /** check_password: compare the buffer with CORRECT_PASSWORD, drive the LEDs and the flag, clear the buffer. */
    method CheckPassword()
      requires Terminated()
      modifies this, enteredValue
      ensures Terminated() && enteredValue == old(enteredValue)
      ensures View() == AccessSpec.CheckPassword(old(View()), old(View().entered))
      ensures valIndex == 0 && forall i :: 0 <= i < enteredValue.Length ==> enteredValue[i] == Nul
    {
      CStringAt(enteredValue[..], valIndex);
      assert enteredValue[..][..valIndex] == enteredValue[..valIndex];
      if PasswordMatches(enteredValue[..]) {
        grantedLed, deniedLed := High, Low;
        systemActive := true;
      } else {
        grantedLed, deniedLed := Low, High;
        systemActive := false;
      }
      forall i | 0 <= i < enteredValue.Length {
        enteredValue[i] := Nul;
      }
      valIndex := 0;
    }

    /** The body of the while loop in access_control_task: handle one key, then set the fan from the PIR level. */
    method Step(key: char, pir: bool)
      requires Valid()
      modifies this, enteredValue
      ensures Valid() && enteredValue == old(enteredValue)
      ensures View() == Next(old(View()), Tick(key, pir))
      ensures key == SubmitKey ==> valIndex == 0 && forall i :: 0 <= i < enteredValue.Length ==> enteredValue[i] == Nul
    {
      ghost var before := View();
      if key != NoKey {
        if key == SubmitKey {
          if valIndex < MaxEntry {
            Append(key);
          }
          CheckPassword();
        } else if key == DeleteKey {
          if valIndex > 0 {
            valIndex := valIndex - 1;
            enteredValue[valIndex] := Nul;
          } else {
            systemActive := false;
            fanPercent := FanOff;
          }
        } else {
          if valIndex < MaxEntry {
            Append(key);
          }
        }
      }
      assert View().(fan := before.fan) == KeyStep(before, key).(fan := before.fan);
      if systemActive {
        if pir {
          fanPercent := FanFull;
        } else {
          fanPercent := FanOff;
        }
      } else {
        fanPercent := FanOff;
      }
      NextKeepsInv(before, Tick(key, pir));
    }
  }

  /**
   * The loop of access_control_task over a finite run of iterations: start as at
   * boot, feed one key and one PIR reading per iteration, and report the final state.
   */
  method Session(ticks: seq<Tick>) returns (final: GateView)
    ensures final == Run(Boot(), ticks)
    ensures Inv(final)
    ensures !final.active ==> final.fan == FanOff
  {
    var gate := new Gate();
    var i := 0;
    while i < |ticks|
      invariant 0 <= i <= |ticks|
      invariant gate.Valid() && fresh(gate.enteredValue)
      invariant gate.View() == Run(Boot(), ticks[..i])
    {
      gate.Step(ticks[i].key, ticks[i].pir);
      assert ticks[..i + 1][..i] == ticks[..i];
      i := i + 1;
    }
    assert ticks[..i] == ticks;
    final := gate.View();
    LockedMeansFanOff(ticks);
  }
}
