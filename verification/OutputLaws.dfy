/** The control output, told by its laws instead of its formula. */
module OutputLaws {
  import opened Control

  /** At rest values the output is 20 percent. */
  lemma OutputAtReference()
    ensures ControlOutput(0.0, 25.0, 3.0) == 20.0
  {
  }

  /** The output never falls with speed or oil pressure and never rises with temperature. */
  lemma OutputIsMonotone(rpm: real, rpm': real, temperature: real, temperature': real, oil: real, oil': real)
    requires rpm <= rpm' && temperature >= temperature' && oil <= oil'
    ensures ControlOutput(rpm, temperature, oil) <= ControlOutput(rpm', temperature', oil')
  {
    assert temperature * 0.25 >= temperature' * 0.25;
    assert rpm / 100.0 <= rpm' / 100.0;
  }

  predicate Unsaturated(output: real) { 0.0 < output < 100.0 }

  /** Between its limits the output is linear: a percent for 100 rpm, for 0.1 bar, and for 4 degrees less. */
  lemma OutputDifference(rpm: real, rpm': real, temperature: real, temperature': real, oil: real, oil': real)
    requires Unsaturated(ControlOutput(rpm, temperature, oil)) && Unsaturated(ControlOutput(rpm', temperature', oil'))
    ensures ControlOutput(rpm', temperature', oil') - ControlOutput(rpm, temperature, oil) ==
              (rpm' - rpm) / 100.0 - (temperature' - temperature) * 0.25 + (oil' - oil) * 10.0
  {
  }

  /** Rearranged, with the constants gathered: what the output would be without limits. */
  function Drive(rpm: real, temperature: real, oil: real): real {
    rpm / 100.0 + 10.0 * oil - temperature / 4.0 - 3.75
  }

  /** The output is the drive, held between 0 and 100. */
  function Held(x: real): real {
    if x <= 0.0 then 0.0 else if x >= 100.0 then 100.0 else x
  }

  lemma OutputIsHeldDrive(rpm: real, temperature: real, oil: real)
    ensures ControlOutput(rpm, temperature, oil) == Held(Drive(rpm, temperature, oil))
  {
    assert (temperature - 25.0) * 0.25 == temperature / 4.0 - 6.25;
    assert (3.0 - oil) * 10.0 == 30.0 - 10.0 * oil;
  }
}
