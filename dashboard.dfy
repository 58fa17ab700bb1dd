/** The dashboard's recommendation rule (src/routes/dashboard.tsx): each
  * selectable plant has an optimal range per sensor, and a reading is rated
  * good, warning or critical against it. Before any reading arrives the page
  * shows fixed sample data instead. Values are `real`, which holds both the
  * integer readings the device decoder produces and the sample's 22.5. */
module Dashboard {
  import opened Wrappers
  import opened JsText
  import opened SensorDecoder
  import AlertCard

  datatype Range = Range(min: real, max: real)

  predicate Contains(range: Range, v: real) {
    range.min <= v <= range.max
  }

  datatype Plant = Strawberry | Tomato | Lettuce

  datatype PlantConditions = PlantConditions(
    name: string,
    moisture: Range,
    temperature: Range,
    humidity: Range,
    illuminance: Range)

  /** The growing conditions table; every range in it is non-empty. */
  function Conditions(p: Plant): (c: PlantConditions)
    ensures c.moisture.min < c.moisture.max && c.temperature.min < c.temperature.max
    ensures c.humidity.min < c.humidity.max && c.illuminance.min < c.illuminance.max
  {
    match p
    case Strawberry =>
      PlantConditions("딸기", Range(30.0, 70.0), Range(18.0, 25.0), Range(60.0, 70.0), Range(500.0, 1000.0))
    case Tomato =>
      PlantConditions("토마토", Range(40.0, 70.0), Range(20.0, 27.0), Range(55.0, 70.0), Range(700.0, 1500.0))
    case Lettuce =>
      PlantConditions("상추", Range(50.0, 80.0), Range(15.0, 22.0), Range(60.0, 80.0), Range(300.0, 800.0))
  }

  datatype Status = Good | Warning | Critical

  /** How serious a status is: good 0, warning 1, critical 2. */
  function Severity(s: Status): nat {
    match s
    case Good => 0
    case Warning => 1
    case Critical => 2
  }

  datatype Assessment = Assessment(status: Status, action: string)

  const GoodAction := "현재 값이 적정 범위입니다."
  const Below := "낮습니다"
  const Above := "높습니다"

  /** The text shown for a value out of range, naming its direction. */
  function NeedsAction(direction: string): (t: string)
    ensures t != GoodAction && Includes(t, direction)
  {
    var t := "값이 " + direction + ". 조치가 필요합니다.";
    IncludesMiddle("값이 ", direction, ". 조치가 필요합니다.");
    assert t[0] != GoodAction[0];
    t
  }

  /** How far `v` lies from the range: zero inside it, otherwise the distance
    * to the nearer bound. Written as a maximum, independently of the rule. */
  function Gap(v: real, range: Range): (g: real)
    ensures g >= 0.0
  {
    var below := range.min - v;
    var above := v - range.max;
    if below >= above && below >= 0.0 then below
    else if above >= 0.0 then above
    else 0.0
  }

  /** `statusFromRange`: good inside the range; outside it, critical when the
    * distance exceeds a fifth of the range's width (the source's
    * `distance > (max - min) * 0.2`), warning otherwise; the action says
    * whether the value is too low or too high. */
  function StatusFromRange(current: real, range: Range): (a: Assessment)
    ensures a.status == Good <==> Contains(range, current)
    ensures a.action == GoodAction <==> a.status == Good
    ensures current < range.min ==> a.action == NeedsAction(Below)
    ensures range.min <= current && current > range.max ==> a.action == NeedsAction(Above)
    ensures range.min <= range.max ==>
              (a.status == Critical <==> 5.0 * Gap(current, range) > range.max - range.min)
  {
    if range.min <= current <= range.max then
      Assessment(Good, GoodAction)
    else
      var distance := if current < range.min then range.min - current else current - range.max;
      var severity := if 5.0 * distance > range.max - range.min then Critical else Warning;
      var direction := if current < range.min then Below else Above;
      Assessment(severity, NeedsAction(direction))
  }

  /** Outside a non-empty range the distance the rule measures is positive,
    * and it is zero exactly inside. */
  lemma GapPositiveOutside(v: real, range: Range)
    requires range.min <= range.max
    ensures Gap(v, range) == 0.0 <==> Contains(range, v)
    ensures v < range.min ==> Gap(v, range) == range.min - v
    ensures v > range.max ==> Gap(v, range) == v - range.max
  {
  }

  /** A value farther from the range is never rated less severely. */
  lemma StatusMonotone(v: real, w: real, range: Range)
    requires range.min <= range.max
    requires Gap(v, range) <= Gap(w, range)
    ensures Severity(StatusFromRange(v, range).status) <= Severity(StatusFromRange(w, range).status)
  {
    GapPositiveOutside(v, range);
    GapPositiveOutside(w, range);
  }

  /** The sensor record the page stores; the timestamp is left out. */
  datatype SensorData = SensorData(moisture: real, temperature: real, humidity: real, illuminance: real)

  datatype Weather = Weather(location: string, temperature: real, humidity: real, willRain: bool, probability: real)

  datatype Recommendation = Recommendation(current: real, optimal: Range, action: string, status: Status)

  datatype Recommendations = Recommendations(
    moisture: Recommendation,
    temperature: Recommendation,
    humidity: Recommendation,
    illuminance: Recommendation)

  datatype DashboardData = DashboardData(
    sensors: SensorData,
    weather: Weather,
    recommendations: Recommendations,
    alerts: seq<AlertCard.Alert>)

  /** `handleSensorData`: the four device fields are stored unchanged. */
  function HandleSensorData(data: Reading): (s: SensorData)
    ensures s.moisture == data.moisture as real && s.temperature == data.temperature as real
    ensures s.humidity == data.humidity as real && s.illuminance == data.illuminance as real
  {
    SensorData(data.moisture as real, data.temperature as real, data.humidity as real, data.illuminance as real)
  }

  /** The placeholder weather of a locally computed dashboard. */
  const LocalWeather := Weather("로컬", 0.0, 0.0, false, 0.0)

  /** One sensor's recommendation: the reading, the plant's range for it,
    * and the status and action `statusFromRange` gives. */
  function Recommend(current: real, range: Range): (r: Recommendation)
    ensures r.current == current && r.optimal == range
    ensures r.status == Good <==> Contains(range, current)
    ensures r.action == GoodAction <==> r.status == Good
    ensures range.min <= range.max ==>
              (r.status == Critical <==> 5.0 * Gap(current, range) > range.max - range.min)
    ensures current < range.min ==> r.action == NeedsAction(Below)
    ensures range.min <= current && current > range.max ==> r.action == NeedsAction(Above)
  {
    var a := StatusFromRange(current, range);
    Recommendation(current, range, a.action, a.status)
  }

  /** `calculateRecommendations`: each sensor is rated against the selected
    * plant's range for it; the reading is echoed and no alert is raised. */
  function CalculateRecommendations(plant: Plant, data: SensorData): (d: DashboardData)
    ensures d.sensors == data && d.alerts == [] && d.weather == LocalWeather
    ensures d.recommendations.moisture.current == data.moisture
    ensures d.recommendations.temperature.current == data.temperature
    ensures d.recommendations.humidity.current == data.humidity
    ensures d.recommendations.illuminance.current == data.illuminance
    ensures d.recommendations.moisture.optimal == Conditions(plant).moisture
    ensures d.recommendations.temperature.optimal == Conditions(plant).temperature
    ensures d.recommendations.humidity.optimal == Conditions(plant).humidity
    ensures d.recommendations.illuminance.optimal == Conditions(plant).illuminance
  {
    var c := Conditions(plant);
    DashboardData(
      data,
      LocalWeather,
      Recommendations(
        Recommend(data.moisture, c.moisture),
        Recommend(data.temperature, c.temperature),
        Recommend(data.humidity, c.humidity),
        Recommend(data.illuminance, c.illuminance)),
      [])
  }

  /** Every status is good exactly when every reading lies in the plant's range. */
  predicate AllGood(r: Recommendations) {
    r.moisture.status == Good && r.temperature.status == Good
    && r.humidity.status == Good && r.illuminance.status == Good
  }

  lemma AllGoodIffInRange(plant: Plant, data: SensorData)
    ensures AllGood(CalculateRecommendations(plant, data).recommendations)
        <==> (Contains(Conditions(plant).moisture, data.moisture)
              && Contains(Conditions(plant).temperature, data.temperature)
              && Contains(Conditions(plant).humidity, data.humidity)
              && Contains(Conditions(plant).illuminance, data.illuminance))
  {
  }

  /** A reading decoded from the device shows a moisture within [0, 100]
    * on every plant's dashboard. */
  lemma DecodedMoistureShown(line: string, plant: Plant)
    requires DecodeLine(line).Some?
    ensures var d := CalculateRecommendations(plant, HandleSensorData(DecodeLine(line).value));
            0.0 <= d.recommendations.moisture.current <= 100.0
  {
    DecodedMoistureInRange(line);
  }

  /** The sample shown before any reading: fixed values, every sensor marked
    * good, with the selected plant's ranges. */
  const SampleSensors := SensorData(50.0, 22.5, 65.0, 800.0)
  const SampleWeather := Weather("서울", 20.0, 70.0, false, 10.0)

  function SampleDashboard(plant: Plant): (d: DashboardData)
    ensures d.sensors == SampleSensors && d.alerts == []
    ensures AllGood(d.recommendations)
    ensures d.recommendations.moisture.optimal == Conditions(plant).moisture
    ensures d.recommendations.temperature.optimal == Conditions(plant).temperature
    ensures d.recommendations.humidity.optimal == Conditions(plant).humidity
    ensures d.recommendations.illuminance.optimal == Conditions(plant).illuminance
  {
    var c := Conditions(plant);
    DashboardData(
      SampleSensors,
      SampleWeather,
      Recommendations(
        Recommendation(50.0, c.moisture, "현재 토양 수분이 적정 범위입니다.", Good),
        Recommendation(22.5, c.temperature, "현재 온도가 적정 범위입니다.", Good),
        Recommendation(65.0, c.humidity, "현재 습도가 적정 범위입니다.", Good),
        Recommendation(800.0, c.illuminance, "현재 조도가 적정 범위입니다.", Good)),
      [])
  }

  /** The data the page renders: the sample until a reading is stored, then
    * the recommendations computed from it. */
  function Displayed(plant: Plant, stored: Option<SensorData>): (d: DashboardData)
    ensures stored.None? ==> d.sensors == SampleSensors
    ensures stored.Some? ==> d.sensors == stored.value
    ensures d.alerts == []
    ensures stored.None? ==> AllGood(d.recommendations)
    ensures stored.Some? ==>
              (AllGood(d.recommendations) <==>
                 Contains(Conditions(plant).moisture, stored.value.moisture)
                 && Contains(Conditions(plant).temperature, stored.value.temperature)
                 && Contains(Conditions(plant).humidity, stored.value.humidity)
                 && Contains(Conditions(plant).illuminance, stored.value.illuminance))
    ensures d.recommendations.moisture.optimal == Conditions(plant).moisture
    ensures d.recommendations.temperature.optimal == Conditions(plant).temperature
    ensures d.recommendations.humidity.optimal == Conditions(plant).humidity
    ensures d.recommendations.illuminance.optimal == Conditions(plant).illuminance
  {
    match stored
    case None => SampleDashboard(plant)
    case Some(data) => CalculateRecommendations(plant, data)
  }

  /** For strawberry and tomato the sample's "good" labels are what the rule
    * itself gives the sample values; for lettuce the sample temperature 22.5
    * lies above the range [15, 22], which the rule rates as a warning. */
  lemma SampleAgreesWithRule(plant: Plant)
    ensures plant != Lettuce ==>
              AllGood(CalculateRecommendations(plant, SampleSensors).recommendations)
    ensures plant == Lettuce ==>
              CalculateRecommendations(plant, SampleSensors).recommendations.temperature.status == Warning
              && SampleDashboard(plant).recommendations.temperature.status == Good
  {
    AllGoodIffInRange(plant, SampleSensors);
  }
}
