# pytheos equation-of-state algebra in Dafny

This project models the equation-of-state (EOS) algebra of pytheos, a Python library that turns unit-cell volume and temperature into pressure for high-pressure mineral physics, and proves properties of that model. It covers:

- the static EOS: third-order Birch-Murnaghan, Vinet and Kunc. For each it models the pressure, the volume found by root search, the analytic and numerical bulk moduli, and the Birch-Murnaghan shear modulus and finite strain;
- the thermal EOS: the Tange, Speziale, Dorogokupets 2007 and Dorogokupets 2015 families, and alpha·K_T. The piecewise Debye-energy approximation sits under them;
- the Zharkov anharmonic correction and the Zharkov and Tsuchiya electronic corrections;
- the linear Hugoniot: pressure, temperature and density;
- Jamieson's nonlinear Hugoniot pressure and his static and thermal pressures;
- the unit conversions and the `isuncertainties` rule that picks the plain (numpy) or the uncertain (uncertainties.unumpy) backend;
- the two EOS objects of `pytheos/scales/objs.py`. `MGEOS` adds thermal, electronic and anharmonic terms, chosen by name from dispatch tables, to a static pressure. `JHEOS` takes its static pressure from a Hugoniot. Both invert pressure to volume with a `force_norm` flag set during the search.

The model works over the reals:

- exp, log, fractional powers and sqrt are fields of an `Ops` record (`Numerics.Ops`). So are brenth, quad, odeint and `constq_pth`. A few laws about them are stated as predicates (`ElementaryLaws` with its part `SquareLaw`, `SqrtLaws`, `BrenthLaw`, `QuadLaw`, `OdeLaw`), and the lemmas that need them take them as preconditions.
- The uncertain backend appears only as a flag. The laws say `unp.exp` and `unp.sqrt` agree with numpy's on nominal values, which is what makes the backend-independence lemmas hold.
- Python exceptions become the error cases of `Wrappers.Result`. A division by zero, or a numpy square root or logarithm outside its domain, is `OutsideModel`. The uncertainties logarithm outside its domain (Speziale with theta0 ≤ 0 on the uncertain backend) raises, and is `MathDomain`.
- Arrays are `seq<real>`, and `np.vectorize` is `Numerics.Vectorize`: the first failing element decides the error, and a size-0 input is the `ValueError` `EmptyVectorize`. The array wrappers call `isuncertainties` on their arguments first, and `arg[0]` of an empty array raises `IndexError` there, so an empty pressure, temperature or density array is `IndexError` before any vectorizing.

Each module of the project matches one source file: `conversion.dfy`, `etc.dfy`, `eqn_bm3.dfy`, `eqn_vinet.dfy`, `eqn_kunc.dfy`, `eqn_debye.dfy`, `eqn_therm.dfy`, `eqn_therm_tange.dfy`, `eqn_therm_speziale.dfy`, `eqn_therm_dorogokupets2007.dfy`, `eqn_therm_dorogokupets2015.dfy`, `eqn_anharmonic.dfy`, `eqn_electronic.dfy`, `eqn_hugoniot.dfy`, `eqn_jamieson.dfy` and `objs.dfy`. `wrappers.dfy` holds `Result` and `Option`. `numerics.dfy` holds the oracles and `Vectorize`. `debye_thermal.dfy` holds the Debye thermal pressure that the Tange, Speziale and Dorogokupets 2007 files each write out.

Some behaviour of the code that is easy to miss, and that the model keeps:

- The volume search returns early at temperature 300, not at `t_ref`: `cal_v` tests the literal 300 (`pytheos/scales/objs.py:206`, `:427`), and so does `VolumeSingle`.
- At zero compression `hugoniot_t_single` returns the literal 300 K, whatever `t_ref` is (`pytheos/eqn_hugoniot.py:84-85`).
- `JHEOS._hugoniot_t` does not pass `t_ref` on, so the integration always starts from the default 300 K.
- Under `force_norm` the code reads parameters through `value.n`, which a plain float does not have. So `force_norm` with a plain-float parameter is an `AttributeError` in `SetParams`.

## Model

| member | source | states |
|---|---|---|
| Conversion.UcMolUcRoundTrip | pytheos/conversion.py:31-50 | for z ≠ 0, vol_mol2uc undoes vol_uc2mol |
| Conversion.MolUcMolRoundTrip | pytheos/conversion.py:31-50 | for z ≠ 0, vol_uc2mol undoes vol_mol2uc |
| Conversion.VolUc2MolLinear | pytheos/conversion.py:31-39 | vol_uc2mol is linear in the unit-cell volume |
| Conversion.VolUc2MolPositiveIncreasing | pytheos/conversion.py:31-39 | for z > 0, the molar volume is positive and strictly increasing on positive volumes |
| Conversion.VelocitiesRoundTrip | pytheos/conversion.py:5-28 | for rho > 0, non-negative velocities come back unchanged from moduli_to_velocities(velocities_to_moduli(...)) |
| Conversion.ModuliRoundTrip | pytheos/conversion.py:5-28 | for rho > 0, non-negative moduli come back unchanged from velocities_to_moduli(moduli_to_velocities(...)) |
| Etc.TrueIffSomeQualifies | pytheos/etc.py:5-21 | isuncertainties returns True exactly when some argument (a UFloat, or a list, tuple or array whose first entry is one) comes before any empty list or array |
| Etc.FalseIffNoneQualifies | pytheos/etc.py:5-21 | it returns False exactly when no argument qualifies and none is empty |
| Etc.IndexErrorIffEmptyFirst | pytheos/etc.py:12-17 | it raises IndexError exactly when an empty list, tuple or array is reached before any qualifying argument |
| Etc.OnlyLeadingElementInspected | pytheos/etc.py:13-17 | only `arg[0]` of a list, tuple or array affects the outcome |
| Etc.ScalarQualifiesIffUncertain | pytheos/etc.py:18-20 | a lone scalar argument makes the outcome True exactly when it is a UFloat |
| Etc.ScalarRule | pytheos/etc.py:5-21 | over scalar arguments the outcome is True exactly when one of them is uncertain, and it never raises |
| Numerics.Vectorize | pytheos/eqn_bm3.py:78-82 | np.vectorize over a single argument: a size-0 input is a ValueError; otherwise defined exactly when every call is, then elementwise equal to the calls, else the error of the first failing element |
| Numerics.VectorizeFirstError | pytheos/eqn_bm3.py:78-82 | the first failing element decides the exception |
| Numerics.VectorizeAllOk | pytheos/eqn_bm3.py:78-82 | when every call succeeds on a non-empty input, the result is the sequence of their values; an empty input is still the ValueError |
| EqnBm3.Bm3PAtV0 | pytheos/eqn_bm3.py:12-39 | bm3_p(v0) = p_ref |
| EqnBm3.Bm3Objective | pytheos/eqn_bm3.py:59-60 | the brenth objective bm3_p(v) - p |
| EqnBm3.Bm3VSingle | pytheos/eqn_bm3.py:42-62 | returns v0 when p ≤ 1e-5; under the brenth law, a returned volume lies between v0 and v0·min_strain and solves bm3_p(v) = p; with no sign change across the bracket it is an error |
| EqnBm3.Bm3V | pytheos/eqn_bm3.py:65-82 | an empty pressure array raises IndexError in isuncertainties; otherwise elementwise bm3_v_single on both backends, defined exactly when every element is |
| EqnBm3.Bm3VLowPressure | pytheos/eqn_bm3.py:56-57 | a non-empty array of pressures ≤ 1e-5 maps to v0 throughout |
| EqnBm3.CalKBm3FromVAtV0 | pytheos/eqn_bm3.py:155-165 | the analytic bulk modulus at v0 is k0 |
| EqnBm3.CalKBm3 | pytheos/eqn_bm3.py:96-152 | at p ≤ 1e-5 the modulus at v0; above it, under the brenth law, the analytic modulus at a volume between v0 and v0·0.01 that solves bm3_p(v) = p, and an error when the pressure does not change sign across that bracket |
| EqnBm3.CalKBm3LowPressure | pytheos/eqn_bm3.py:143-165 | below the search threshold the bulk modulus is k0 |
| EqnBm3.Bm3ShearAtV0 | pytheos/eqn_bm3.py:199-202 | the shear modulus at v0 is g0 |
| EqnBm3.CalGBm3 | pytheos/eqn_bm3.py:168-202 | at p ≤ 1e-5 the shear modulus at v0; above it, under the brenth law, the shear modulus at a volume between v0 and v0·0.01 that solves bm3_p(v) = p, and an error when the pressure does not change sign across that bracket |
| EqnBm3.CalGBm3LowPressure | pytheos/eqn_bm3.py:184-202 | below the search threshold the shear modulus is g0 |
| EqnBm3.CalSmallFAtV0 | pytheos/eqn_bm3.py:205-239 | the finite strain f is 0 at v0 |
| EqnBm3.CalBigFRecoversPressure | pytheos/eqn_bm3.py:242-251 | F · 3f(1+2f)^2.5 recovers p |
| EqnBm3.Bm3BigF | pytheos/eqn_bm3.py:217-227 | a defined F, multiplied back by 3f(1+2f)^2.5 at the strain of v, gives p |
| EqnBm3.Bm3KNumSecant | pytheos/eqn_bm3.py:110-140 | the numerical bulk modulus is -v times the central difference, i.e. v(P(v-h) - P(v+h))/2h with h = v0·precision |
| EqnBm3.Bm3KNumPositive | pytheos/eqn_bm3.py:110-140 | a sign fact drawn from Bm3KNumSecant: where bm3_p falls across [v-h, v+h] at positive v and step, bm3_k_num is positive |
| Numerics.RoundHalfEven | pytheos/eqn_debye.py:29-30 | np.round(25 / x) as an integer: within 0.5 of its argument, ties go to the even neighbour |
| EqnDebye.DebyeE | pytheos/eqn_debye.py:6-43 | debye_E_single fails (the result is never assigned) exactly when x ≤ 0 |
| EqnDebye.DebyeESingle | pytheos/eqn_debye.py:6-43 | the three independent tests, the unassigned result and the series loop compute DebyeE |
| EqnDebye.SeriesLoop | pytheos/eqn_debye.py:31-41 | after n iterations, temp is the sum of the first n series terms and temp2 is exp(-x)^n |
| EqnDebye.DebyeEArray | pytheos/eqn_debye.py:46-59 | an empty array raises IndexError in isuncertainties; a non-empty one is defined exactly when every x > 0, and otherwise fails with the unassigned result; then it is elementwise debye_E_single, on both backends |
| EqnDebye.BranchesPartition | pytheos/eqn_debye.py:14-27 | the three branch tests are pairwise disjoint and together cover exactly x > 0 |
| EqnDebye.DebyeSmallInUnitInterval | pytheos/eqn_debye.py:14-16 | the small-x polynomial lies strictly between 0 and 1 |
| EqnDebye.MiddleDenominatorPositive | pytheos/eqn_debye.py:18-23 | the middle-branch denominator is positive for x ≥ 0 |
| EqnDebye.TermCountBounds | pytheos/eqn_debye.py:27-30 | above 7.25 the series has between 0 and 3 terms |
| EqnDebye.TermCountZero | pytheos/eqn_debye.py:29-32 | from x = 50 on, the series is empty |
| EqnDebye.DebyeLargeNoTerms | pytheos/eqn_debye.py:27-42 | with an empty series the large-x branch is 3 · 6.493939402 / x³ |
| EqnVinet.CalPVinetBackendIndependent | pytheos/eqn_vinet.py:45-49 | the uncertainties flag only picks the exp implementation: both backends give the same pressure |
| EqnVinet.CalPVinetAtV0 | pytheos/eqn_vinet.py:39-50 | at v = v0 the divisions are defined and the pressure is 0 for every k0, k0p and backend |
| EqnVinet.VinetPSelectsBackend | pytheos/eqn_vinet.py:13-27 | vinet_p uses the uncertainties exp exactly when one of (v, v0, k0, k0p) is uncertain, and without effect on the value |
| EqnVinet.PlainArgsPlain | pytheos/eqn_vinet.py:68-70 | on plain floats, as brenth and derivative call it, vinet_p uses numpy's exp |
| EqnVinet.VinetObjective | pytheos/eqn_vinet.py:68-69 | the brenth objective vinet_p(v) - p |
| EqnVinet.VinetVSingle | pytheos/eqn_vinet.py:53-71 | returns v0 when p ≤ 1e-5; under the brenth law, a returned root lies between v0 and v0·min_strain with cal_p_vinet(v) = p; no sign change across the bracket is an error |
| EqnVinet.VinetV | pytheos/eqn_vinet.py:74-91 | an empty pressure array raises IndexError in isuncertainties; otherwise elementwise vinet_v_single, defined exactly when every element is |
| EqnVinet.CalKVinetFromVAtV0 | pytheos/eqn_vinet.py:166-181 | the analytic bulk modulus at v0 is k0 |
| EqnVinet.VinetKNumSecant | pytheos/eqn_vinet.py:121-151 | vinet_k_num is -v times the central difference of vinet_p with step v0·precision, i.e. v(P(v-h) - P(v+h))/2h |
| EqnVinet.VinetKNumPositive | pytheos/eqn_vinet.py:121-151 | a sign fact drawn from VinetKNumSecant: where vinet_p falls across [v-h, v+h] at positive v and step, vinet_k_num is positive |
| EqnKunc.CalPKuncAtV0 | pytheos/eqn_kunc.py:41-51 | at v = v0 the divisions are defined and the pressure is 0 for every order and backend |
| EqnKunc.CalPKuncBackendIndependent | pytheos/eqn_kunc.py:46-49 | both exp backends give the same pressure |
| EqnKunc.KuncOrder2IsVinet | pytheos/eqn_kunc.py:44-51 | with order 2, cal_p_kunc equals cal_p_vinet for all inputs and either backend |
| EqnKunc.KuncPSelectsBackend | pytheos/eqn_kunc.py:13-26 | kunc_p uses the uncertainties exp exactly when one of (v, v0, k0, k0p) is uncertain, and without effect on the value |
| EqnKunc.PlainArgsPlain | pytheos/eqn_kunc.py:69-71 | on plain floats kunc_p uses numpy's exp |
| EqnKunc.KuncObjective | pytheos/eqn_kunc.py:69-70 | the brenth objective kunc_p(v, order) - p, with the order passed through unchanged |
| EqnKunc.KuncVSingle | pytheos/eqn_kunc.py:54-72 | returns v0 when p ≤ 1e-5; under the brenth law, a returned root lies between v0 and v0·min_strain and solves cal_p_kunc of the same order; no sign change is an error |
| EqnKunc.KuncV | pytheos/eqn_kunc.py:75-93 | an empty pressure array raises IndexError in isuncertainties; otherwise elementwise kunc_v_single, defined exactly when every element is |
| EqnKunc.KuncKNumSecant | pytheos/eqn_kunc.py:114-146 | kunc_k_num is -v times the central difference of kunc_p with step v0·precision, i.e. v(P(v-h) - P(v+h))/2h |
| EqnKunc.KuncKNumPositive | pytheos/eqn_kunc.py:114-146 | a sign fact drawn from KuncKNumSecant: where kunc_p falls across [v-h, v+h] at positive v and step, kunc_k_num is positive |
| DebyeThermal.ToGPaLinear | pytheos/eqn_therm_Tange.py:79-82 | the conversion γ/V_mol · E · 1e-9 is linear in the energy and maps 0 to 0 |
| DebyeThermal.EnergyPressure | pytheos/eqn_therm_Dorogokupets2007.py:70-73 | the term γ/V_mol · 3R·n·t·E(θ/t) · 1e-9 is defined exactly when V_mol ≠ 0, t ≠ 0 and θ/t > 0 |
| DebyeThermal.ThermalPressureIsDifference | pytheos/eqn_therm_Tange.py:72-83 | for t_ref ≠ 0 the thermal pressure is f(temp) - f(t_ref) |
| DebyeThermal.ThermalPressureAtReference | pytheos/eqn_therm_Tange.py:72-83 | at temp = t_ref it is defined exactly when V_mol ≠ 0, t ≠ 0 and θ/t > 0, and is then 0 |
| DebyeThermal.ThermalPressureZeroReference | pytheos/eqn_therm_Tange.py:74-75 | with t_ref = 0 the reference energy is 0 and the pressure is f(temp) alone |
| DebyeThermal.EnergyDifference | pytheos/eqn_therm_Dorogokupets2007.py:70-75 | f(temp) - f(t_ref) is defined exactly when both terms are |
| DebyeThermal.EnergyDifferenceAntisymmetric | pytheos/eqn_therm_Dorogokupets2007.py:75 | f(temp) - f(t_ref) is 0 at temp = t_ref and changes sign when the two are exchanged |
| EqnThermTange.TangeGrunAtV0 | pytheos/eqn_therm_Tange.py:13-25 | tange_grun(v0) = gamma0 |
| EqnThermTange.TangeGrunConstant | pytheos/eqn_therm_Tange.py:25 | with a = 0, γ = gamma0 at every volume |
| EqnThermTange.TangeDebyeTempAtV0 | pytheos/eqn_therm_Tange.py:28-48 | tange_debyetemp(v0) = theta0 on both backends |
| EqnThermTange.TangeDebyeTempBackendIndependent | pytheos/eqn_therm_Tange.py:42-47 | both exp backends give the same Debye temperature |
| EqnThermTange.TangePthAtReference | pytheos/eqn_therm_Tange.py:51-83 | a defined tange_pth at temp = t_ref is 0 |
| EqnThermTange.TangePthZeroReference | pytheos/eqn_therm_Tange.py:74-82 | with t_ref = 0, p_th = γ/V_mol · 3R·n·T·E(θ/T) · 1e-9 |
| EqnThermTange.TangePthAtV0 | pytheos/eqn_therm_Tange.py:69-83 | at v0 the pressure is the Debye thermal pressure with gamma0 and theta0 |
| EqnThermTange.TangePthIsDifference | pytheos/eqn_therm_Tange.py:72-83 | for t_ref ≠ 0, tange_pth is f(temp) - f(t_ref) |
| EqnThermTange.TangePth | pytheos/eqn_therm_Tange.py:51-83 | tange_pth is defined exactly when z, v0 and b are non-zero and the Debye energies at temp and (for t_ref ≠ 0) at t_ref are |
| EqnTherm.AlphaKtPthAtReference | pytheos/eqn_therm.py:21 | the pressure is 0 at temp = t_ref |
| EqnTherm.AlphaKtPthIgnoresVolume | pytheos/eqn_therm.py:5-21 | the result does not depend on v, v0, n, z or three_r |
| EqnTherm.AlphaKtPthDifference | pytheos/eqn_therm.py:21 | pth(T1) - pth(T2) = alpha0·k0·(T1 - T2), whatever t_ref |
| EqnTherm.AlphaKtPth | pytheos/eqn_therm.py:5-21 | alphakt_pth is 0 exactly when alpha0 = 0, k0 = 0 or temp = t_ref |
| EqnThermSpeziale.SpezialeGrunAtV0 | pytheos/eqn_therm_Speziale.py:15-30 | speziale_grun(v0) = gamma0 on both backends |
| EqnThermSpeziale.SpezialeGrunBackendIndependent | pytheos/eqn_therm_Speziale.py:26-29 | both exp backends give the same Grüneisen parameter |
| EqnThermSpeziale.SpezialeGrunConstant | pytheos/eqn_therm_Speziale.py:27-29 | with q0 = 0, γ = gamma0 at every volume |
| EqnThermSpeziale.IntegrateGammaAtV0 | pytheos/eqn_therm_Speziale.py:57-74 | at v = v0 the integral has zero length and is 0 |
| EqnThermSpeziale.SpezialeDebyeTempAtV0 | pytheos/eqn_therm_Speziale.py:33-54 | θ = exp(log θ0 - ∫γ/V) equals theta0 at v0, for theta0 > 0 and either backend |
| EqnThermSpeziale.SpezialeDebyeTempPositive | pytheos/eqn_therm_Speziale.py:49-53 | for theta0 > 0 (where log theta0 is defined), θ is positive at every volume and does not depend on the backend |
| EqnThermSpeziale.SpezialePthAtReference | pytheos/eqn_therm_Speziale.py:77-109 | a defined speziale_pth at temp = t_ref is 0 |
| EqnThermSpeziale.SpezialePthAtV0 | pytheos/eqn_therm_Speziale.py:95-109 | at v0 the pressure is the Debye thermal pressure with gamma0 and theta0 |
| EqnThermSpeziale.SpezialePthIsDifference | pytheos/eqn_therm_Speziale.py:98-109 | for theta0 > 0 and t_ref ≠ 0, speziale_pth is f(temp) - f(t_ref) |
| EqnThermSpeziale.SpezialePthZeroReference | pytheos/eqn_therm_Speziale.py:100-109 | with t_ref = 0 the reference term is 0 and speziale_pth is γ/V_mol · 3R·n·T·E(θ/T) · 1e-9 alone |
| EqnThermSpeziale.SpezialePth | pytheos/eqn_therm_Speziale.py:77-109 | theta0 ≤ 0 puts log theta0 outside its domain: an error (MathDomain on the uncertain backend); otherwise defined exactly when z, v0, q1 are non-zero and the Debye energies at temp and t_ref are |
| EqnThermDorogokupets2007.AltshulerGrunAtV0 | pytheos/eqn_therm_Dorogokupets2007.py:9-21 | altshuler_grun(v0) = gamma0 |
| EqnThermDorogokupets2007.AltshulerGrunConstant | pytheos/eqn_therm_Dorogokupets2007.py:21 | with gamma0 = gamma_inf, γ is that constant at every volume |
| EqnThermDorogokupets2007.AltshulerDebyeTempAtV0 | pytheos/eqn_therm_Dorogokupets2007.py:24-43 | altshuler_debyetemp(v0) = theta0 on both backends |
| EqnThermDorogokupets2007.AltshulerDebyeTempScales | pytheos/eqn_therm_Dorogokupets2007.py:36-43 | θ is proportional to theta0, and both backends give the same value |
| EqnThermDorogokupets2007.Dorogokupets2007PthAtReference | pytheos/eqn_therm_Dorogokupets2007.py:46-75 | a defined dorogokupets2007_pth at temp = t_ref is 0 |
| EqnThermDorogokupets2007.Dorogokupets2007PthAntisymmetric | pytheos/eqn_therm_Dorogokupets2007.py:70-75 | exchanging temp and t_ref negates the result, and one side is defined exactly when the other is |
| EqnThermDorogokupets2007.Dorogokupets2007PthIsThermalPressure | pytheos/eqn_therm_Dorogokupets2007.py:65-75 | for t_ref ≠ 0 it is the Debye thermal pressure that tange_pth and speziale_pth also compute, at the Altshuler γ and θ |
| EqnThermDorogokupets2007.Dorogokupets2007Pth | pytheos/eqn_therm_Dorogokupets2007.py:46-75 | dorogokupets2007_pth is defined exactly when z, v0 and beta are non-zero and the Debye energies at temp and at t_ref are |
| EqnThermDorogokupets2015.EinsteinDomainIff | pytheos/eqn_therm_Dorogokupets2015.py:40-56 | under the laws of exp, theta / (exp(theta / t) - 1) is defined on either backend exactly when t ≠ 0 and theta ≠ 0 |
| EqnThermDorogokupets2015.TermLinearInWeight | pytheos/eqn_therm_Dorogokupets2015.py:49-52 | a weighted oscillator term is linear in its weight m_i / (m1 + m2) |
| EqnThermDorogokupets2015.WeightsSumToOne | pytheos/eqn_therm_Dorogokupets2015.py:49-52 | the weights m1 / (m1 + m2) and m2 / (m1 + m2) sum to 1 |
| EqnThermDorogokupets2015.EqualThetasSingleTerm | pytheos/eqn_therm_Dorogokupets2015.py:49-57 | with equal Debye temperatures the two oscillator terms add up to one term of full weight |
| EqnThermDorogokupets2015.ThetasShareVolumeFactor | pytheos/eqn_therm_Dorogokupets2015.py:35-37 | theta1 and theta2 are theta01 and theta02 times one common volume factor, on either backend |
| EqnThermDorogokupets2015.Dorogokupets2015PthAtReference | pytheos/eqn_therm_Dorogokupets2015.py:9-59 | at temp = t_ref the result is defined exactly when every division is, and then it is 0 |
| EqnThermDorogokupets2015.Dorogokupets2015PthAntisymmetric | pytheos/eqn_therm_Dorogokupets2015.py:57-59 | exchanging temp and t_ref negates the result, and one side is defined exactly when the other is |
| EqnThermDorogokupets2015.Dorogokupets2015SingleOscillator | pytheos/eqn_therm_Dorogokupets2015.py:34-59 | with theta01 = theta02 the model is one Einstein oscillator of full weight, taken at temp minus at t_ref |
| EqnThermDorogokupets2015.Dorogokupets2015Pth | pytheos/eqn_therm_Dorogokupets2015.py:9-59 | dorogokupets2015_pth is defined exactly when every division of the two-oscillator formula is, and fails with OutsideModel otherwise |
| EqnAnharmonic.AnharmonicCoefficientAtV0 | pytheos/eqn_anharmonic.py:23-24 | at the reference volume the coefficient a0 (v/v0)^m is a0 |
| EqnAnharmonic.AnharmonicTermZero | pytheos/eqn_anharmonic.py:26-27 | f(t) is 0 when a = 0 or m = 0 |
| EqnAnharmonic.ZharkovPanh | pytheos/eqn_anharmonic.py:6-29 | zharkov_panh is defined exactly when z, v0 and v are non-zero (the divisions by v0 and by V_mol) |
| EqnAnharmonic.ZharkovPanhAtReference | pytheos/eqn_anharmonic.py:29 | at temp = t_ref the anharmonic pressure is 0 |
| EqnAnharmonic.ZharkovPanhVanishes | pytheos/eqn_anharmonic.py:24-29 | with a0 = 0 or m = 0 the anharmonic pressure is 0 at every volume and temperature |
| EqnAnharmonic.ZharkovPanhAntisymmetric | pytheos/eqn_anharmonic.py:29 | exchanging temp and t_ref negates the result, and one side is defined exactly when the other is |
| EqnAnharmonic.ZharkovPanhQuadratic | pytheos/eqn_anharmonic.py:22-29 | under the laws of pow the result is 3 R n / 2 a m / V_mol (temp² - t_ref²) 1e-9 |
| EqnAnharmonic.AnharmonicTermDifference | pytheos/eqn_anharmonic.py:26-29 | f is linear in t², so f(temp) - f(t_ref) is f taken at temp² - t_ref² |
| EqnElectronic.ElectronicTermZero | pytheos/eqn_electronic.py:27-29 | f(t) of zharkov_pel is 0 when e0 = 0 or g = 0 |
| EqnElectronic.ZharkovPel | pytheos/eqn_electronic.py:6-30 | zharkov_pel is defined exactly when z, v0 and v are non-zero |
| EqnElectronic.ZharkovPelAtReference | pytheos/eqn_electronic.py:30 | at temp = t_ref the electronic pressure is 0 |
| EqnElectronic.ZharkovPelVanishes | pytheos/eqn_electronic.py:23-30 | with e0 = 0 or g = 0 the electronic pressure is 0 at every volume and temperature |
| EqnElectronic.ZharkovPelAntisymmetric | pytheos/eqn_electronic.py:30 | exchanging temp and t_ref negates the result, and one side is defined exactly when the other is |
| EqnElectronic.TsuchiyaPelAtReference | pytheos/eqn_electronic.py:33-55 | at temp = t_ref tsuchiya_pel is 0 |
| EqnElectronic.TsuchiyaPelIndependent | pytheos/eqn_electronic.py:33-55 | the result does not depend on v, v0, n, z, three_r or the constant a |
| EqnElectronic.TsuchiyaPelAntisymmetric | pytheos/eqn_electronic.py:53-55 | exchanging temp and t_ref negates the result |
| EqnElectronic.TsuchiyaPel | pytheos/eqn_electronic.py:33-55 | tsuchiya_pel is the cubic a + bT + cT² + dT³ at temp minus at t_ref; its partners are TsuchiyaPelAtReference, TsuchiyaPelIndependent and TsuchiyaPelAntisymmetric |
| EqnHugoniot.HugoniotPAtRho0 | pytheos/eqn_hugoniot.py:10-22 | at rho = rho0 hugoniot_p is defined and is 0 |
| EqnHugoniot.HugoniotPMomentumBalance | pytheos/eqn_hugoniot.py:20-21 | hugoniot_p is the momentum balance rho0 Us Up with Us = c0 / (1 - s eta) and Up = eta Us |
| EqnHugoniot.HugoniotP | pytheos/eqn_hugoniot.py:10-22 | hugoniot_p where rho ≠ 0 and (1 - s eta)² ≠ 0; its partners are HugoniotPAtRho0 and HugoniotPMomentumBalance |
| EqnHugoniot.HeatCapacity | pytheos/eqn_hugoniot.py:54-55 | a non-zero c_v is used as given; c_v = 0 gives the Debye heat capacity 3nk (4 E(x) - 3x / (exp(x) - 1)) |
| EqnHugoniot.SlopeWithHeatCapacity | pytheos/eqn_hugoniot.py:57-58 | the temperature slope is defined exactly when 2 c_v rho0 is non-zero |
| EqnHugoniot.DTHDeltaSuppliedHeatCapacity | pytheos/eqn_hugoniot.py:25-60 | with a supplied non-zero c_v, _dT_h_delta does not depend on threenk |
| EqnHugoniot.DTHDeltaDerivedHeatCapacity | pytheos/eqn_hugoniot.py:50-58 | with c_v = 0, _dT_h_delta equals its value when the Debye heat capacity at x = theta / T is supplied as c_v |
| EqnHugoniot.DTHDelta | pytheos/eqn_hugoniot.py:25-60 | _dT_h_delta fails when eta = 1, q = 0 or T = 0 (its divisions); its partners are DTHDeltaSuppliedHeatCapacity and DTHDeltaDerivedHeatCapacity |
| EqnHugoniot.HugoniotTSingle | pytheos/eqn_hugoniot.py:83-85 | with no compression (eta = 0) the Hugoniot temperature is 300 K |
| EqnHugoniot.HugoniotTSingleAtRho0 | pytheos/eqn_hugoniot.py:83-85 | at rho = rho0 the result is the literal 300 K whatever t_ref is |
| EqnHugoniot.HugoniotTSingleInKiloKelvin | pytheos/eqn_hugoniot.py:86-91 | under a compression the result is 1000 times the odeint result from t_ref / 1000 over [0, eta], and fails exactly when odeint fails |
| EqnHugoniot.HugoniotTSingleStartError | pytheos/eqn_hugoniot.py:86-91 | when _dT_h_delta fails at the start point, hugoniot_t_single fails with that error |
| EqnHugoniot.HugoniotT | pytheos/eqn_hugoniot.py:94-121 | an empty density array raises IndexError in isuncertainties; otherwise it succeeds exactly when hugoniot_t_single succeeds on every density, and then gives that value at each position |
| EqnHugoniot.HugoniotRhoSingle | pytheos/eqn_hugoniot.py:146-163 | p ≤ 1e-5 gives rho0; a found root lies between rho0 and rho0 / min_strain and has hugoniot_p(rho) = p; an unbracketed root is an error |
| EqnHugoniot.HugoniotRho | pytheos/eqn_hugoniot.py:125-143 | an empty pressure array raises IndexError in isuncertainties; otherwise it succeeds exactly when hugoniot_rho_single succeeds on every pressure, and then gives that value at each position |
| EqnJamieson.UpAt | pytheos/eqn_jamieson.py:106-115 | no compression gives the zero particle velocity; under a compression a velocity exists exactly when c ≠ 0 and the discriminant is non-negative |
| EqnJamieson.ParticleVelocitySolves | pytheos/eqn_jamieson.py:109-115 | with either square-root backend, the particle velocity is a root of c eta Up² + (b eta - 1) Up + a eta = 0, i.e. Up = eta Us |
| EqnJamieson.ParticleVelocityBackendIndependent | pytheos/eqn_jamieson.py:108-115 | the uncertainties square root and numpy's give the same particle velocity |
| EqnJamieson.RootIsCompression | pytheos/eqn_jamieson.py:109-116 | a root of that quadratic satisfies eta (a + b Up + c Up²) = Up |
| EqnJamieson.RootFormula | pytheos/eqn_jamieson.py:109-115 | ((b eta - 1) + r) / (-2 eta c) with r² the discriminant is a root of the quadratic |
| EqnJamieson.HugoniotPNlinAtRho0 | pytheos/eqn_jamieson.py:106-118 | at rho = rho0 the nonlinear Hugoniot pressure is 0 |
| EqnJamieson.HugoniotPNlinMomentumBalance | pytheos/eqn_jamieson.py:106-118 | wherever it is defined under a compression, the pressure is rho0 Up Us with Us = a + b Up + c Up² and Up = eta Us |
| EqnJamieson.HugoniotPNlinCorrected | pytheos/eqn_jamieson.py:94-118 | an empty density array raises IndexError in isuncertainties; otherwise the intended hugoniot_p_nlin succeeds exactly when every entry has a pressure, and then gives each entry's pressure |
| EqnJamieson.HugoniotPNlinCorrectedZeroCompression | pytheos/eqn_jamieson.py:107 | an entry at rho0 comes out as pressure 0, whatever the other entries are |
| EqnJamieson.HugoniotPNlinAsWritten | pytheos/eqn_jamieson.py:94-118 | the code as written: an empty array is an IndexError, and any result it gives agrees with the intended one |
| EqnJamieson.HugoniotPNlin | pytheos/eqn_jamieson.py:94-118 | an empty array is an IndexError; otherwise the in-place computation (zeros, then the masked entries overwritten, then Ph = rho0 Up Us) equals the intended pressure array, errors included |
| EqnJamieson.FirstFailure | pytheos/eqn_jamieson.py:106-118 | the first entry whose pressure fails decides the error of the whole array |
| EqnJamieson.CountCompressed | pytheos/eqn_jamieson.py:109 | the number of true entries of the mask eta != 0 is at most the length, and equals it exactly when every entry is compressed |
| EqnJamieson.AsWrittenAgreesWhenMaskFull | pytheos/eqn_jamieson.py:106-118 | with plain numbers the code as written agrees with the intended one on a single density and on arrays that are compressed everywhere |
| EqnJamieson.MaskAssignmentMismatch | pytheos/eqn_jamieson.py:113-115 | densities [1, 2] with rho0 = 1: the masked assignment raises a shape error, where the intended result is defined with pressure 0 first |
| EqnJamieson.UncertainZeroCompressionRaises | pytheos/eqn_jamieson.py:108-111 | a single uncertain density at rho0 raises a zero division, where pressure 0 is intended |
| EqnJamieson.JamiesonPthAtV0 | pytheos/eqn_jamieson.py:62-91 | at v0 the Hugoniot temperature is the literal 300 K, so jamieson_pth is constq_pth at 300 K whatever t_ref is |
| EqnJamieson.JamiesonPth | pytheos/eqn_jamieson.py:62-91 | jamieson_pth fails with OutsideModel when z = 0 or the molar volume of v or v0 is 0, so that a density mass / V_mol is undefined; otherwise constq_pth at the Hugoniot temperature of v |
| EqnJamieson.JamiesonPst | pytheos/eqn_jamieson.py:30-59 | jamieson_pst is defined exactly when both densities exist, hugoniot_p is defined and jamieson_pth is defined |
| EqnJamieson.JamiesonPstRecoversHugoniot | pytheos/eqn_jamieson.py:53-58 | the static pressure plus the thermal pressure along the Hugoniot is hugoniot_p |
| EqnJamieson.JamiesonPstAtV0 | pytheos/eqn_jamieson.py:53-58 | at v0 the static pressure is minus constq_pth at 300 K, and is defined exactly when that is |
| Objs.FlagIffSomeUncertain | pytheos/etc.py:5-21 | the backend flag of a formula is raised exactly when some parameter is a UFloat |
| Objs.SetParams | pytheos/scales/objs.py:102-114 | _set_params succeeds exactly when the dict exists and, under force_norm, every value has `.n`; failures are AttributeErrors; it keeps each nominal value and marks it uncertain only without force_norm |
| Objs.SetParamsForcedIsNominal | pytheos/scales/objs.py:110-114 | forcing the nominal values changes no number and selects the plain backends |
| Objs.StaticPressure | pytheos/scales/objs.py:116-124 | a tag missing from func_st is a KeyError; vinet_p takes exactly 3 parameters, bm3_p and kunc_p 3 or 4; any result comes from a known tag with 3 or 4 parameters |
| Objs.StaticPressureAtV0 | pytheos/scales/objs.py:116-124 | at v = v0 the static pressure is 0, or p_ref for bm3 with four parameters, whatever the parameter kinds |
| Objs.ThermalPressure | pytheos/scales/objs.py:126-139 | a tag missing from func_th is a KeyError; each thermal equation but constq takes exactly its own number of parameters; constq is handed the nominal parameters |
| Objs.ThermalPressureAtReference | pytheos/scales/objs.py:126-139 | every thermal equation but constq gives 0 at temp = t_ref |
| Objs.ElectronicPressure | pytheos/scales/objs.py:141-154 | a tag missing from func_el is a KeyError; zharkov_pel takes 3 parameters and tsuchiya_pel 5 |
| Objs.ElectronicPressureAtReference | pytheos/scales/objs.py:141-154 | both electronic equations give 0 at temp = t_ref |
| Objs.AnharmonicPressure | pytheos/scales/objs.py:156-169 | a tag missing from func_anh is a KeyError; zharkov_panh takes 3 parameters |
| Objs.AnharmonicPressureAtReference | pytheos/scales/objs.py:156-169 | the anharmonic equation gives 0 at temp = t_ref |
| Objs.Lookup | pytheos/scales/objs.py:200 | no value exactly when no entry has the key; a found value is stored under that key |
| Objs.NominalV0 | pytheos/scales/objs.py:200 | `params['v0'].nominal_value`: None is not subscriptable, a missing key is a KeyError, a plain float fails, and a UFloat gives its nominal value |
| Objs.Broadcast | pytheos/scales/objs.py:215-216 | pressures and temperatures pair up exactly when their lengths agree or one is 1; otherwise a shape error; the pairs repeat a length-1 array, also against an empty one |
| Objs.ObjectiveRoot | pytheos/scales/objs.py:209-210 | a root of f_diff has the target pressure |
| Objs.VolumeSingle | pytheos/scales/objs.py:205-214 | p ≤ 1e-5 at the literal 300 K gives v0; a found volume lies between v0 max_strain and v0 min_strain and has the target pressure; a failing pressure at v0 max_strain propagates |
| Objs.Volumes | pytheos/scales/objs.py:215-216 | a shape error when the arrays do not broadcast; a ValueError from np.vectorize when they broadcast to nothing; on success one volume per broadcast pair, each the single search of that pair |
| Objs.VolumesSolve | pytheos/scales/objs.py:205-216 | each volume of a successful search is v0 for a near-zero pressure at 300 K, and otherwise a bracketed volume at which the pressure of its temperature is the target |
| Objs.MGEOS.constructor | pytheos/scales/objs.py:36-76 | the object keeps every argument as given, tags included, with the source's defaults, and starts with force_norm off |
| Objs.MGEOS.CalPst | pytheos/scales/objs.py:116-124 | cal_pst reads the static parameters first: a failing _set_params is its AttributeError |
| Objs.MGEOS.CalPth | pytheos/scales/objs.py:126-139 | cal_pth is 0 when the thermal equation or its parameters are None; a failing _set_params is an AttributeError |
| Objs.MGEOS.CalPel | pytheos/scales/objs.py:141-154 | cal_pel is 0 when the electronic equation or its parameters are None; a failing _set_params is an AttributeError |
| Objs.MGEOS.CalPanh | pytheos/scales/objs.py:156-169 | cal_panh is 0 when the anharmonic equation or its parameters are None; a failing _set_params is an AttributeError |
| Objs.MGEOS.CalP | pytheos/scales/objs.py:171-186 | cal_p evaluates the static term first and then the thermal one, so their failures come out in that order |
| Objs.MGEOS.CalPIsSum | pytheos/scales/objs.py:171-186 | cal_p is defined exactly when each of the four terms is, and is their sum |
| Objs.MGEOS.StaticOnly | pytheos/scales/objs.py:126-186 | with no thermal, electronic or anharmonic equation configured, cal_p is cal_pst at every temperature |
| Objs.MGEOS.AtReferenceTemperature | pytheos/scales/objs.py:126-186 | unless the thermal equation is constq, cal_p at t_ref is cal_pst |
| Objs.MGEOS.UnknownTagFailsOnEvaluation | pytheos/scales/objs.py:116-139 | an unknown static or thermal tag is accepted by the constructor and fails with a KeyError on evaluation |
| Objs.MGEOS.CalV | pytheos/scales/objs.py:188-218 | v0 is read before force_norm is raised, so a bad v0 leaves the object unchanged; the result is the volume search with force_norm set; force_norm is off again exactly when the search returns |
| Objs.MGEOS.CalVSolves | pytheos/scales/objs.py:205-216 | each volume cal_v returns is v0 for a near-zero pressure at 300 K, and otherwise lies in [v0 max_strain, v0 min_strain] with cal_p equal to the target |
| Objs.JHEOS.constructor | pytheos/scales/objs.py:226-259 | the object keeps every argument as given, with the source's defaults, and starts with force_norm off |
| Objs.JHEOS.GetRho | pytheos/scales/objs.py:299-310 | _get_rho is defined exactly when z and v are non-zero, and is the density jamieson_pst uses |
| Objs.JHEOS.GetV | pytheos/scales/objs.py:312-324 | _get_v is defined exactly when rho is non-zero |
| Objs.JHEOS.GetVOfGetRho | pytheos/scales/objs.py:299-324 | _get_v undoes _get_rho |
| Objs.JHEOS.GetRhoOfGetV | pytheos/scales/objs.py:299-324 | _get_rho undoes _get_v |
| Objs.JHEOS.HugoniotPressure | pytheos/scales/objs.py:338-350 | _hugoniot_p needs z and v non-zero and 3 (linear) or 4 (nonlinear) Hugoniot parameters; a wrong count is an arity error |
| Objs.JHEOS.HugoniotTemperature | pytheos/scales/objs.py:352-375 | _hugoniot_t needs z and v non-zero and both parameter dicts |
| Objs.JHEOS.CalPth | pytheos/scales/objs.py:377-387 | cal_pth without thermal parameters is an AttributeError |
| Objs.JHEOS.CalPst | pytheos/scales/objs.py:326-336 | cal_pst evaluates the Hugoniot pressure first, so its failure comes out first |
| Objs.JHEOS.CalP | pytheos/scales/objs.py:399-407 | cal_p evaluates cal_pst first and then cal_pth, so their failures come out in that order |
| Objs.JHEOS.NonlinearTemperatureUsesLinearFit | pytheos/scales/objs.py:358-371 | in the nonlinear case the temperature uses rho0, a and b in the places of the linear rho0, c0 and s, never sees c, and drops the thermal v0 |
| Objs.JHEOS.HugoniotTemperatureAtRho0 | pytheos/scales/objs.py:352-375 | at the starting density of the Hugoniot, _hugoniot_t is the literal 300 K |
| Objs.JHEOS.CalPDecomposition | pytheos/scales/objs.py:326-407 | cal_p is defined exactly when the Hugoniot pressure and both thermal pressures are; it is p_H - p_th(T_H) + p_th(temp), and it equals p_H at the Hugoniot temperature |
| Objs.JHEOS.LinearAgreesWithJamiesonPst | pytheos/scales/objs.py:326-397 | in the linear case, with rho0 the density of the thermal v0 and t_ref = 300, cal_pst is jamieson_pst |
| Objs.JHEOS.CalV | pytheos/scales/objs.py:409-439 | v0 comes from the thermal parameters before force_norm is raised; the result is the volume search with force_norm set; force_norm is off again exactly when the search returns |
| Objs.JHEOS.CalVSolves | pytheos/scales/objs.py:426-437 | each volume is v0 for a near-zero pressure at 300 K, and otherwise lies in [v0 max_strain, v0 min_strain] with cal_p equal to the target |

## Left out

- Floating-point behaviour: rounding, overflow, NaN and infinity are not modelled. A division by zero, or a sqrt or log outside its domain, is the error `OutsideModel` where numpy would give `inf` or `nan` with a warning.
- The value of exp, log, fractional powers and sqrt beyond the laws in `Numerics.ElementaryLaws` and `Numerics.SqrtLaws`. So no claim depends on their actual graphs.
- The internals of brenth, quad, odeint and `scipy.misc.derivative`. The first three are `Ops` oracles with bracket, root and initial-value laws. The derivative (n = 1, order = 3) is written out as the central difference it computes.
- Uncertainty propagation by the `uncertainties` package (`uct.wrap`, `unp.exp`, `unp.sqrt`, standard deviations). A value carries only whether it is a UFloat, and its nominal part.
- `constq_pth`: `pytheos/eqn_therm_constq.py` is not part of this model. It is the oracle `Ops.constqPth`, so no property of the constant-q family is proved. This is why `Objs.MGEOS.AtReferenceTemperature` and `Objs.ThermalPressureAtReference` exclude the tag `constq`.
- numpy shapes beyond one dimension. Volumes, temperatures and pressures are scalars or `seq<real>`.
- Objs.MGEOS.CalPst: the `MGEOS` and `JHEOS` pressure functions take one plain volume and temperature, not arrays. `np.asarray` and `np.zeros_like(v)` become scalar operations, and an absent term is 0.
- Objs.MGEOS.CalPst: the pressure functions take the current value of `force_norm` as the argument `norm` instead of reading the field. `CalV` passes `true`, the value during the search.
- Objs.ThermalPressure: the backend flag is `isuncertainties` over the parameters. Each formula's own flag also covers v and temp, which are plain floats here. Speziale tests five arguments for `speziale_grun` and six for `speziale_debyetemp`, where the model uses one flag over all parameters. The backend-independence lemmas make the value the same either way.
- Objs.StaticPressure: bm3 with `k0 = 0` or `v0 = 0` is `OutsideModel` before the formula is evaluated. The division by zero in the source has no value in the model.
- The `print_reference`, `print_equations` and `print_parameters` methods, and the `print(v)` in `JHEOS._get_v` (`pytheos/scales/objs.py:323`). They are console output only.
- The `reference`, `ef_v` and `ef_T` fields. They are stored and never read by the modelled code.
- The list-argument wrappers `cal_v_bm3` and `cal_v_vinet` (`pytheos/eqn_bm3.py:85-93`, `pytheos/eqn_vinet.py:94-103`). They only unpack `[v0, k0, k0p]` around `bm3_v` and `vinet_v`, which are modelled.
- `vinet_k` and `cal_k_vinet` (`pytheos/eqn_vinet.py:106-163`). Each composes `vinet_v` with `cal_k_vinet_from_v`. Both parts are modelled (`EqnVinet.VinetV`, `EqnVinet.CalKVinetFromVAtV0`), but the Vinet counterpart of `EqnBm3.CalKBm3` is not written out.
- The commented-out string blocks in `pytheos/eqn_jamieson.py:121-185` and `pytheos/eqn_kunc.py:96-111`. They are not live code.
- EqnJamieson.HugoniotPNlinAsWritten: a zero density is `OutsideModel` without distinguishing numpy's division warning. With plain numbers, a negative discriminant at a masked-out entry is ignored, as numpy discards the `nan` there.
- Objs.JHEOS.HugoniotPressure: the nonlinear case uses the intended per-entry Hugoniot pressure (`EqnJamieson.HugoniotPNlinAt`), not the masked assignment as written (see Findings).
- The fitting wrappers (`pytheos/fit_*.py`), plotting, the literature catalogs in `pytheos/scales/`, the example scripts and the packaging files. They only configure or call the modelled functions.

## Findings

| source | as written | input that shows it | evidently intended | confidence | as-written member | corrected member |
|---|---|---|---|---|---|---|
| pytheos/eqn_jamieson.py:107-115 | `Up[eta != 0.] = <expression over all of eta>` assigns an array of every entry's value through a mask that selects fewer entries. numpy raises when the counts differ and the array has more than one entry. | `hugoniot_p_nlin(np.array([1.0, 2.0]), 1.0, 1.0, 1.0, 0.1)`: eta = [0, 0.5], one masked entry, two values | entries with eta = 0 keep Up = 0 and pressure 0, and the others take the root | not executed | EqnJamieson.MaskAssignmentMismatch | EqnJamieson.HugoniotPNlinCorrected |
| pytheos/eqn_jamieson.py:108-111 | In the uncertain branch the whole expression is evaluated with UFloat arithmetic, so an entry with eta = 0 divides by `-2 * eta * c = 0`. The uncertainties package raises `ZeroDivisionError` instead of giving `inf`. | a single uncertain density equal to rho0 | pressure 0 at zero compression | not executed | EqnJamieson.UncertainZeroCompressionRaises | EqnJamieson.HugoniotPNlinCorrected |
