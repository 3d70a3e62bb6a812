/** The keyword intent classifier of the chat assistant (ChatAssistant.tsx,
    `generateAIResponse`): the message is lower-cased, then an ordered table of rules
    is scanned; a rule fires when the message contains any one of its fragments, the
    first rule that fires picks the response, and the welcome text answers everything
    else. The table is the if-chain of the source, one rule per `if`, in source order. */
module Classifier {
  import opened Text

  /** One response of the assistant, named after its topic. */
  datatype Template =
      About
    | Specifications
    | Installation
    | MobileApp
    | SupportWarranty
    | Pricing
    | RfidAccess
    | LoadBalancing
    | WeatherProtection
    | Firmware
    | Connectors
    | SlowCharging
    | Optimization
    | Maintenance
    | StatusLight
    | Troubleshooting
    | Welcome

  /** A rule: the fragments it looks for and the response it selects. */
  datatype Rule = Rule(fragments: seq<string>, template: Template)

  /** The if-chain of `generateAIResponse`, in source order. */
  const Rules: seq<Rule> := [
    Rule(["astreea", "about", "company"], About),
    Rule(["model", "specification", "specs"], Specifications),
    Rule(["installation", "install", "setup"], Installation),
    Rule(["app", "mobile", "smartphone"], MobileApp),
    Rule(["warranty", "support", "service"], SupportWarranty),
    Rule(["price", "cost", "buy", "purchase"], Pricing),
    Rule(["rfid", "access", "card", "authentication"], RfidAccess),
    Rule(["load balancing", "power sharing", "multiple chargers"], LoadBalancing),
    Rule(["weather", "outdoor", "ip65", "waterproof"], WeatherProtection),
    Rule(["firmware", "update", "software"], Firmware),
    Rule(["connector", "cable", "type 2", "plug"], Connectors),
    Rule(["slow", "charging slowly"], SlowCharging),
    Rule(["optim", "efficiency"], Optimization),
    Rule(["maintenance", "service"], Maintenance),
    Rule(["status", "light", "amber", "warning"], StatusLight),
    Rule(["error", "problem", "issue"], Troubleshooting)
  ]

  /** A rule fires when the text contains one of its fragments. */
  predicate Matches(rule: Rule, text: string) {
    exists f :: f in rule.fragments && Contains(text, f)
  }

  /** The first rule that fires decides; when none fires the welcome text answers. */
  function FirstMatch(rules: seq<Rule>, text: string): Template
    decreases |rules|
  {
    if |rules| == 0 then Welcome
    else if Matches(rules[0], text) then rules[0].template
    else FirstMatch(rules[1..], text)
  }

  /** `generateAIResponse` up to the text: which response a message gets. */
  function Classify(message: string): Template {
    FirstMatch(Rules, Lower(message))
  }

  /** `generateAIResponse`: the text of the response a message gets. */
  function GenerateResponse(message: string): string {
    ResponseText(Classify(message))
  }

  /** The position of a response's rule in the table; the welcome text comes after all. */
  function Rank(t: Template): nat {
    match t
    case About => 0
    case Specifications => 1
    case Installation => 2
    case MobileApp => 3
    case SupportWarranty => 4
    case Pricing => 5
    case RfidAccess => 6
    case LoadBalancing => 7
    case WeatherProtection => 8
    case Firmware => 9
    case Connectors => 10
    case SlowCharging => 11
    case Optimization => 12
    case Maintenance => 13
    case StatusLight => 14
    case Troubleshooting => 15
    case Welcome => 16
  }

  /** The response texts, verbatim. */
  function ResponseText(t: Template): string {
    match t
    case About =>
      "Astreea is a leading manufacturer of intelligent EV charging solutions. We specialize in:\n\n• **Smart AC Chargers**: 7kW, 11kW, and 22kW models with advanced connectivity\n• **DC Fast Chargers**: High-power solutions for commercial applications\n• **AI-Powered Management**: Intelligent load balancing and predictive maintenance\n• **Cloud Integration**: Real-time monitoring and remote diagnostics\n\nOur chargers are designed for reliability, efficiency, and seamless user experience. All models feature weatherproof construction, RFID access control, and mobile app integration."
    case Specifications =>
      "Astreea Smart Charger Specifications:\n\n**AC Models:**\n• **7kW Single Phase**: Perfect for home use, Type 2 connector\n• **11kW Three Phase**: Ideal for workplace charging\n• **22kW Three Phase**: Maximum AC charging speed\n\n**Key Features:**\n• IP65 weatherproof rating\n• -30°C to +50°C operating temperature\n• RFID card access control\n• WiFi + Ethernet connectivity\n• LED status indicators\n• Emergency stop button\n• Ground fault protection (Type A + DC 6mA)\n\n**Dimensions**: 320mm x 180mm x 95mm\n**Weight**: 3.2kg\n**Warranty**: 3 years standard\n\nWhich specific model are you interested in learning more about?"
    case Installation =>
      "Astreea Charger Installation Guide:\n\n**Pre-Installation:**\n• Verify electrical supply capacity\n• Check local electrical codes and permits\n• Ensure WiFi coverage at installation location\n• Plan cable routing and mounting location\n\n**Installation Steps:**\n1. **Electrical Connection**: Connect to dedicated circuit breaker\n2. **Mounting**: Secure to wall using provided bracket\n3. **Network Setup**: Configure WiFi through mobile app\n4. **Testing**: Verify all safety systems and connectivity\n\n**Professional Installation Recommended**\nFor safety and warranty compliance, we recommend certified electrician installation.\n\n**Installation Support**: Contact our technical team at support@astreea.com\n\nWould you like specific guidance for your installation scenario?"
    case MobileApp =>
      "Astreea Mobile App Features:\n\n**Charging Control:**\n• Start/stop charging sessions remotely\n• Schedule charging during off-peak hours\n• Set charging limits and targets\n• Monitor real-time charging progress\n\n**Smart Features:**\n• Load balancing across multiple chargers\n• Energy cost tracking and optimization\n• Charging history and analytics\n• Push notifications for session updates\n\n**Management:**\n• User access control and RFID management\n• Firmware updates over-the-air\n• Diagnostic reports and maintenance alerts\n• Integration with energy management systems\n\n**Download:**\n• iOS: Available on App Store\n• Android: Available on Google Play\n\nThe app works seamlessly with all Astreea charger models. Need help with app setup?"
    case SupportWarranty =>
      "Astreea Support & Warranty:\n\n**Warranty Coverage:**\n• **Standard**: 3 years full warranty\n• **Extended**: Up to 5 years available\n• **Coverage**: All components, labor, and software updates\n• **Response**: 24-48 hour support response time\n\n**Support Channels:**\n• **Technical Support**: support@astreea.com\n• **Phone**: Available during business hours\n• **Remote Diagnostics**: Through mobile app\n• **On-site Service**: Available for commercial installations\n\n**Preventive Maintenance:**\n• Annual inspection recommended\n• Firmware updates automatic\n• Performance monitoring continuous\n• Predictive maintenance alerts\n\n**Common Issues Covered:**\n• Connector wear and replacement\n• Software bugs and updates\n• Electrical component failures\n• Weather-related damage\n\nWhat specific support do you need today?"
    case Pricing =>
      "Astreea Charger Pricing & Purchase:\n\n**Pricing Tiers:**\n• **7kW Home**: Starting from competitive home charging rates\n• **11kW Workplace**: Mid-range pricing for commercial use\n• **22kW Commercial**: Premium pricing for high-speed charging\n\n**What's Included:**\n• Charger unit with mounting hardware\n• 3-year comprehensive warranty\n• Mobile app access and cloud services\n• Installation guide and support\n• RFID cards (2 included)\n\n**Purchase Options:**\n• **Direct Sales**: Through Astreea website\n• **Authorized Dealers**: Local installation partners\n• **Bulk Orders**: Special pricing for fleet installations\n• **Financing**: Available for commercial customers\n\n**Contact Sales:**\n• Email: sales@astreea.com\n• Request quote through website\n• Authorized dealer network\n\nWould you like me to help you choose the right model for your needs?"
    case RfidAccess =>
      "Astreea RFID Access Control:\n\n**RFID Features:**\n• **Secure Access**: Only authorized users can charge\n• **User Management**: Add/remove users through mobile app\n• **Multiple Cards**: Support for up to 100 RFID cards per charger\n• **Card Types**: Compatible with standard 13.56MHz RFID cards\n\n**Access Methods:**\n• **RFID Cards**: Tap to start charging\n• **Mobile App**: Start charging remotely\n• **Guest Access**: Temporary access codes\n• **Open Mode**: Disable access control if needed\n\n**Management:**\n• Real-time user activity logging\n• Charging session attribution\n• Cost allocation per user\n• Usage reports and analytics\n\n**Setup:**\n1. Register RFID cards in mobile app\n2. Assign cards to specific users\n3. Set user permissions and limits\n4. Monitor usage through dashboard\n\n**Lost Card?** Easily deactivate and replace through the app.\n\nNeed help setting up RFID access for your charger?"
    case LoadBalancing =>
      "Astreea Smart Load Balancing:\n\n**Dynamic Load Management:**\n• **Automatic Power Distribution**: Intelligently shares available power across multiple chargers\n• **Priority Settings**: Configure charging priorities for different users/vehicles\n• **Grid Protection**: Prevents electrical overload and circuit breaker trips\n• **Real-time Adjustment**: Continuously optimizes power allocation\n\n**Configuration Options:**\n• **Master-Slave Setup**: One charger manages the group\n• **Cloud-Based**: Centralized management through Astreea cloud\n• **Custom Limits**: Set maximum power per charger or user\n• **Time-Based Rules**: Different power limits for peak/off-peak hours\n\n**Benefits:**\n• **Cost Savings**: Avoid expensive electrical upgrades\n• **Efficiency**: Maximize charging speed within available power\n• **Scalability**: Easy to add more chargers to existing setup\n• **Reliability**: Prevents system overloads and downtime\n\n**Supported Configurations:**\n• Up to 32 chargers in one load balancing group\n• Mixed charger types (7kW, 11kW, 22kW)\n• Integration with building energy management\n\nWant to know more about setting up load balancing for your installation?"
    case WeatherProtection =>
      "Astreea Weather Protection & Durability:\n\n**IP65 Rating:**\n• **Dust Protection**: Completely sealed against dust ingress\n• **Water Protection**: Protected against water jets from any direction\n• **Outdoor Ready**: Suitable for all weather conditions\n• **UV Resistant**: Materials tested for long-term sun exposure\n\n**Operating Conditions:**\n• **Temperature Range**: -30°C to +50°C (-22°F to 122°F)\n• **Humidity**: Up to 95% relative humidity\n• **Altitude**: Up to 2000m above sea level\n• **Vibration**: Resistant to mechanical stress\n\n**Construction:**\n• **Housing**: High-grade polycarbonate with UV stabilizers\n• **Seals**: Premium rubber gaskets for long-term weatherproofing\n• **Connectors**: Marine-grade electrical connections\n• **Mounting**: Corrosion-resistant stainless steel hardware\n\n**Extreme Weather Performance:**\n• Tested in salt spray environments\n• Freeze-thaw cycle certified\n• High wind resistance\n• Lightning protection integrated\n\n**Installation Tips:**\n• Mount with slight downward angle for water drainage\n• Ensure proper cable entry sealing\n• Regular inspection of seals recommended\n\nYour Astreea charger is built to withstand the elements for years of reliable service!"
    case Firmware =>
      "Astreea Firmware & Software Updates:\n\n**Automatic Updates:**\n• **Over-the-Air (OTA)**: Updates delivered automatically via WiFi\n• **Scheduled Updates**: Install during low-usage periods\n• **Rollback Protection**: Automatic recovery if update fails\n• **Version Control**: Track firmware versions through mobile app\n\n**Update Features:**\n• **Security Patches**: Regular security enhancements\n• **New Features**: Additional functionality and improvements\n• **Bug Fixes**: Performance and reliability improvements\n• **Protocol Updates**: Support for new charging standards\n\n**Update Process:**\n1. **Notification**: App alerts when update is available\n2. **Download**: Firmware downloaded in background\n3. **Installation**: Quick installation during idle time\n4. **Verification**: System self-test after update\n5. **Confirmation**: Success notification to user\n\n**Manual Control:**\n• **Defer Updates**: Postpone updates if needed\n• **Force Update**: Manually trigger update check\n• **Update History**: View all previous updates\n• **Beta Program**: Early access to new features (optional)\n\n**Current Version**: Check your charger's firmware version in the mobile app settings.\n\nNeed help with a firmware update issue?"
    case Connectors =>
      "Astreea Charging Connectors & Cables:\n\n**Connector Types:**\n• **Type 2 (Mennekes)**: Standard European AC connector\n• **Universal Compatibility**: Works with all Type 2 vehicles\n• **Locking Mechanism**: Secure connection during charging\n• **Weather Sealed**: IP54 rating when connected\n\n**Cable Specifications:**\n• **Length**: 5 meters standard (custom lengths available)\n• **Conductor**: High-grade copper for minimal power loss\n• **Insulation**: TPU jacket for flexibility and durability\n• **Temperature Rating**: -40°C to +90°C\n• **Bend Radius**: Optimized for easy handling\n\n**Safety Features:**\n• **Proximity Detection**: Automatic power adjustment\n• **Temperature Monitoring**: Prevents overheating\n• **Insulation Monitoring**: Continuous safety checks\n• **Emergency Release**: Manual unlock mechanism\n\n**Maintenance:**\n• **Regular Inspection**: Check for wear and damage\n• **Cleaning**: Keep connector contacts clean\n• **Storage**: Proper cable management when not in use\n• **Replacement**: Available through Astreea service network\n\n**Compatibility:**\n• Tesla (with adapter)\n• BMW, Mercedes, Audi, VW Group\n• Nissan, Hyundai, Kia\n• All European EV models\n\nAny specific questions about connector compatibility with your vehicle?"
    case SlowCharging =>
      "Slow charging can be caused by several factors:\n\n• **Temperature**: High ambient temperature (>45°C) triggers thermal throttling\n• **Power sharing**: Multiple Astreea chargers sharing available power through load balancing\n• **Battery state**: Batteries charge slower when nearly full (80%+)\n• **Grid limitations**: Local power grid constraints or voltage fluctuations\n• **Vehicle limitations**: Some vehicles limit charging speed based on battery temperature or age\n• **Connector issues**: Poor connection or worn contacts\n\n**Astreea-Specific Checks:**\n• Verify load balancing settings in mobile app\n• Check if other chargers in your network are active\n• Review power allocation settings\n• Ensure firmware is up to date\n\nI've analyzed your current session data and noticed your temperature is at 42°C, which is within normal range. Would you like me to run a diagnostic check or review your Astreea charger settings?"
    case Optimization =>
      "Here are AI-driven optimization recommendations for your Astreea charger:\n\n**Charging Schedule Optimization:**\n• **Best efficiency**: 10 PM - 6 AM when grid load is lower\n• **Cost savings**: Use Astreea app's time-of-use scheduling\n• **Load balancing**: Stagger charging times if you have multiple chargers\n\n**Astreea Smart Features:**\n• **Dynamic Load Management**: Automatically optimizes power distribution\n• **Energy Cost Tracking**: Monitor and reduce charging costs\n• **Predictive Charging**: AI learns your patterns for optimal scheduling\n• **Grid Integration**: Responds to grid signals for maximum efficiency\n\n**Performance Tips:**\n• **Target charge level**: Stop at 80% for daily use to maximize battery longevity\n• **Temperature management**: Ensure good ventilation around charger\n• **Regular maintenance**: Keep connector contacts clean\n• **Firmware updates**: Always use latest Astreea firmware\n\nYour recent efficiency has been 97.2% - that's exceptional for an Astreea charger! The smart algorithms are working perfectly."
    case Maintenance =>
      "Astreea Predictive Maintenance System:\n\n**AI-Powered Diagnostics:**\n• **Continuous Monitoring**: 24/7 health assessment\n• **Predictive Alerts**: Issues detected before they cause problems\n• **Performance Trending**: Track degradation over time\n• **Automatic Reporting**: Maintenance needs sent to your phone\n\n**Upcoming Maintenance (AI Recommended):**\n• **Connector Inspection**: Check for wear and clean contacts\n• **Firmware Update**: Latest Astreea software available\n• **Calibration Check**: Power sensor accuracy verification\n• **Weather Seal Inspection**: Ensure IP65 rating maintained\n\n**Current Astreea Health Status:**\n• **Connector Wear**: Minimal (within normal parameters)\n• **Internal Components**: All systems nominal\n• **Software Version**: Up to date (v2.1.4)\n• **Performance**: 98.5% of baseline efficiency\n• **Safety Systems**: All tests passed\n\n**Astreea Service Network:**\n• **Authorized Technicians**: Certified service providers\n• **Genuine Parts**: OEM replacement components\n• **Warranty Coverage**: 3-year comprehensive warranty\n• **Remote Support**: Diagnostics through mobile app\n\nWould you like me to schedule a maintenance reminder or connect you with an Astreea service technician?"
    case StatusLight =>
      "Astreea Status Light Indicators:\n\n**LED Status Meanings:**\n🟢 **Green (Solid)**: Ready to charge, all systems optimal\n🟢 **Green (Blinking)**: Charging in progress, normal operation\n🟡 **Amber (Solid)**: Waiting for vehicle connection\n🟡 **Amber (Blinking)**: Minor issue detected, monitoring in progress\n🔴 **Red (Solid)**: Fault condition, charging stopped\n🔴 **Red (Blinking)**: Emergency stop activated\n🔵 **Blue (Pulsing)**: Connecting to WiFi network\n🔵 **Blue (Solid)**: Network connected, system initializing\n⚪ **White (Blinking)**: Firmware update in progress\n\n**Mobile App Integration:**\n• **Real-time Status**: Detailed status in Astreea app\n• **Push Notifications**: Instant alerts for status changes\n• **Historical Log**: Track all status events\n• **Remote Diagnostics**: Detailed fault information\n\n**Current Status**: Your Astreea charger is showing amber due to slightly elevated operating temperature (42°C). This is a precautionary measure and charging continues normally. The system will return to green when temperature drops below 40°C.\n\n**Troubleshooting**: Check the Astreea mobile app for detailed diagnostic information and recommended actions."
    case Troubleshooting =>
      "Astreea Troubleshooting Assistant:\n\n**Current System Status** ✅\n• **No critical errors detected**\n• **All safety systems operational**\n• **Network connectivity stable**\n• **Firmware version current**\n\n**Recent Astreea Notifications:**\n• Temperature alert (auto-resolved)\n• Minor voltage fluctuation (auto-corrected)\n• Load balancing adjustment (normal)\n• Connectivity test passed\n\n**Common Astreea Solutions:**\n1. **Power Cycle**: Disconnect power for 30 seconds, reconnect\n2. **App Reset**: Force close and restart Astreea mobile app\n3. **WiFi Check**: Verify network connection in app settings\n4. **Connector Clean**: Ensure Type 2 connector is clean and dry\n5. **RFID Reset**: Re-tap RFID card or use app to start charging\n\n**Advanced Diagnostics:**\n• **Remote Diagnostics**: Available through Astreea cloud\n• **Error Codes**: Detailed fault information in mobile app\n• **Service Request**: Direct connection to Astreea support team\n• **Warranty Check**: Verify coverage for any hardware issues\n\n**Astreea Support:**\n• **Email**: support@astreea.com\n• **Phone**: Available during business hours\n• **Live Chat**: Through mobile app\n\nCan you describe the specific problem you're experiencing? I can provide targeted Astreea troubleshooting steps."
    case Welcome =>
      "Welcome to Astreea AI Support! I'm your intelligent assistant with comprehensive knowledge of Astreea chargers and access to your real-time charger data.\n\n**I can help you with:**\n• **Product Information**: Specifications, models, and features\n• **Installation Support**: Setup guidance and requirements\n• **Troubleshooting**: Diagnose and resolve charging issues\n• **Performance Optimization**: Maximize efficiency and reduce costs\n• **Maintenance**: Predictive maintenance and service scheduling\n• **Mobile App**: Features and functionality guidance\n• **Technical Support**: Status indicators, error codes, and diagnostics\n• **Load Balancing**: Multi-charger installations and power management\n• **Warranty & Service**: Coverage details and support options\n\n**Smart Features:**\n• Real-time diagnostics and monitoring\n• Predictive maintenance alerts\n• Usage optimization recommendations\n• Integration with Astreea cloud services\n\nWhat would you like to know about your Astreea charger? You can ask me anything or use the quick action buttons below for common topics."
  }

  // ---------------------------------------------------------------------------
  // First match wins

  /** If rule `i` fires and no earlier rule does, rule `i` decides. */
  lemma {:induction false} FirstMatchFound(rules: seq<Rule>, text: string, i: nat)
    requires i < |rules| && Matches(rules[i], text)
    requires forall j :: 0 <= j < i ==> !Matches(rules[j], text)
    ensures FirstMatch(rules, text) == rules[i].template
    decreases i
  {
    if i > 0 {
      assert !Matches(rules[0], text);
      forall j | 0 <= j < i - 1 ensures !Matches(rules[1..][j], text) {
        assert rules[1..][j] == rules[j + 1];
      }
      FirstMatchFound(rules[1..], text, i - 1);
    }
  }

  /** If no rule fires, the welcome text answers. */
  lemma {:induction false} FirstMatchNone(rules: seq<Rule>, text: string)
    requires forall j :: 0 <= j < |rules| ==> !Matches(rules[j], text)
    ensures FirstMatch(rules, text) == Welcome
    decreases |rules|
  {
    if |rules| > 0 {
      assert !Matches(rules[0], text);
      forall j | 0 <= j < |rules| - 1 ensures !Matches(rules[1..][j], text) {
        assert rules[1..][j] == rules[j + 1];
      }
      FirstMatchNone(rules[1..], text);
    }
  }

  /** Conversely, the answer is the response of the first rule that fires, or the
      welcome text when none does. */
  lemma {:induction false} FirstMatchSound(rules: seq<Rule>, text: string)
    ensures (exists i :: 0 <= i < |rules| && FirstMatch(rules, text) == rules[i].template
                         && Matches(rules[i], text)
                         && forall j :: 0 <= j < i ==> !Matches(rules[j], text))
            || (FirstMatch(rules, text) == Welcome
                && forall j :: 0 <= j < |rules| ==> !Matches(rules[j], text))
    decreases |rules|
  {
    if |rules| > 0 && !Matches(rules[0], text) {
      FirstMatchSound(rules[1..], text);
      if exists i :: 0 <= i < |rules| - 1 && FirstMatch(rules[1..], text) == rules[1..][i].template
                     && Matches(rules[1..][i], text)
                     && forall j :: 0 <= j < i ==> !Matches(rules[1..][j], text) {
        var i :| 0 <= i < |rules| - 1 && FirstMatch(rules[1..], text) == rules[1..][i].template
                 && Matches(rules[1..][i], text)
                 && forall j :: 0 <= j < i ==> !Matches(rules[1..][j], text);
        forall j | 0 <= j < i + 1 ensures !Matches(rules[j], text) {
          if j > 0 { assert rules[j] == rules[1..][j - 1]; }
        }
        assert FirstMatch(rules, text) == rules[i + 1].template;
      } else {
        forall j | 0 <= j < |rules| ensures !Matches(rules[j], text) {
          if j > 0 { assert rules[j] == rules[1..][j - 1]; }
        }
      }
    } else if |rules| > 0 {
      assert FirstMatch(rules, text) == rules[0].template;
    }
  }

  /** The table lists every response except the welcome text once, at its rank. */
  lemma RankOfRule(i: nat)
    requires i < |Rules|
    ensures Rank(Rules[i].template) == i
  {
    if i == 0 {
      assert Rules[0].template == About;
    } else if i == 1 {
      assert Rules[1].template == Specifications;
    } else if i == 2 {
      assert Rules[2].template == Installation;
    } else if i == 3 {
      assert Rules[3].template == MobileApp;
    } else if i == 4 {
      assert Rules[4].template == SupportWarranty;
    } else if i == 5 {
      assert Rules[5].template == Pricing;
    } else if i == 6 {
      assert Rules[6].template == RfidAccess;
    } else if i == 7 {
      assert Rules[7].template == LoadBalancing;
    } else if i == 8 {
      assert Rules[8].template == WeatherProtection;
    } else if i == 9 {
      assert Rules[9].template == Firmware;
    } else if i == 10 {
      assert Rules[10].template == Connectors;
    } else if i == 11 {
      assert Rules[11].template == SlowCharging;
    } else if i == 12 {
      assert Rules[12].template == Optimization;
    } else if i == 13 {
      assert Rules[13].template == Maintenance;
    } else if i == 14 {
      assert Rules[14].template == StatusLight;
    } else if i == 15 {
      assert Rules[15].template == Troubleshooting;
    }
  }

  /** Every response but the welcome text has its rule, at its rank. */
  lemma RuleOfTemplate(t: Template)
    requires t != Welcome
    ensures Rank(t) < |Rules| && Rules[Rank(t)].template == t
  {
    match t
    case About => assert Rules[0].template == About;
    case Specifications => assert Rules[1].template == Specifications;
    case Installation => assert Rules[2].template == Installation;
    case MobileApp => assert Rules[3].template == MobileApp;
    case SupportWarranty => assert Rules[4].template == SupportWarranty;
    case Pricing => assert Rules[5].template == Pricing;
    case RfidAccess => assert Rules[6].template == RfidAccess;
    case LoadBalancing => assert Rules[7].template == LoadBalancing;
    case WeatherProtection => assert Rules[8].template == WeatherProtection;
    case Firmware => assert Rules[9].template == Firmware;
    case Connectors => assert Rules[10].template == Connectors;
    case SlowCharging => assert Rules[11].template == SlowCharging;
    case Optimization => assert Rules[12].template == Optimization;
    case Maintenance => assert Rules[13].template == Maintenance;
    case StatusLight => assert Rules[14].template == StatusLight;
    case Troubleshooting => assert Rules[15].template == Troubleshooting;
  }

  /** No two rules share a response, and no rule answers with the welcome text. */
  lemma RulesDistinct()
    ensures forall k, l ::
              0 <= k < |Rules| && 0 <= l < |Rules| && Rules[k].template == Rules[l].template ==> k == l
    ensures forall k :: 0 <= k < |Rules| ==> Rules[k].template != Welcome
  {
    forall k, l | 0 <= k < |Rules| && 0 <= l < |Rules| && Rules[k].template == Rules[l].template
      ensures k == l
    {
      RankOfRule(k);
      RankOfRule(l);
    }
    forall k | 0 <= k < |Rules| ensures Rules[k].template != Welcome {
      RankOfRule(k);
    }
  }

  /** For a table whose responses are distinct, first match wins as an equivalence. */
  lemma FirstMatchIff(rules: seq<Rule>, text: string, i: nat)
    requires i < |rules| && rules[i].template != Welcome
    requires forall k :: 0 <= k < |rules| && rules[k].template == rules[i].template ==> k == i
    ensures FirstMatch(rules, text) == rules[i].template <==>
              Matches(rules[i], text) && forall j :: 0 <= j < i ==> !Matches(rules[j], text)
  {
    if Matches(rules[i], text) && forall j :: 0 <= j < i ==> !Matches(rules[j], text) {
      FirstMatchFound(rules, text, i);
    }
    FirstMatchSound(rules, text);
  }

  /** When rule `k` fires, the answer comes from rule `k` or an earlier one. */
  lemma {:induction false} FirstMatchAtMost(rules: seq<Rule>, text: string, k: nat)
    requires k < |rules| && Matches(rules[k], text)
    ensures exists i :: 0 <= i <= k && FirstMatch(rules, text) == rules[i].template
    decreases k
  {
    if !Matches(rules[0], text) {
      FirstMatchAtMost(rules[1..], text, k - 1);
      var i :| 0 <= i <= k - 1 && FirstMatch(rules[1..], text) == rules[1..][i].template;
      assert FirstMatch(rules, text) == rules[i + 1].template;
    } else {
      assert FirstMatch(rules, text) == rules[0].template;
    }
  }

  /** First match wins, as an equivalence: a message gets the response of rule `t`
      exactly when that rule fires on the lower-cased message and no earlier rule does. */
  lemma ClassifyIsFirstMatch(message: string, t: Template)
    requires t != Welcome
    ensures Rank(t) < |Rules| && Rules[Rank(t)].template == t
    ensures Classify(message) == t <==>
              Matches(Rules[Rank(t)], Lower(message))
              && forall j :: 0 <= j < Rank(t) ==> !Matches(Rules[j], Lower(message))
  {
    RuleOfTemplate(t);
    RulesDistinct();
    FirstMatchIff(Rules, Lower(message), Rank(t));
  }

  /** The fallback is total: a message gets the welcome text exactly when no rule fires. */
  lemma ClassifyWelcome(message: string)
    ensures Classify(message) == Welcome <==>
              forall j :: 0 <= j < |Rules| ==> !Matches(Rules[j], Lower(message))
  {
    FirstMatchSound(Rules, Lower(message));
    RulesDistinct();
  }

  /** Matching is case-insensitive: only the lower-cased message matters. */
  lemma ClassifyIgnoresCase(message: string)
    ensures Classify(message) == Classify(Lower(message))
  {
    LowerIdempotent(message);
  }

  /** The support rule fires on "service". */
  lemma SupportRuleFires(text: string)
    requires Contains(text, "service")
    ensures Matches(Rules[4], text)
  {
    assert Rules[4].fragments == ["warranty", "support", "service"];
  }

  /** "service" is claimed by the support rule, which comes before the maintenance rule:
      such a message gets one of the first five responses, never the maintenance one. */
  lemma ServiceMeansSupport(message: string)
    requires Contains(Lower(message), "service")
    ensures Rank(Classify(message)) <= 4
    ensures Classify(message) != Maintenance
  {
    SupportRuleFires(Lower(message));
    FirstMatchAtMost(Rules, Lower(message), 4);
    var i :| 0 <= i <= 4 && Classify(message) == Rules[i].template;
    RankOfRule(i);
  }

  /** The maintenance rule fires only on its two fragments. */
  lemma MaintenanceRuleFires(text: string)
    requires Matches(Rules[13], text)
    ensures Contains(text, "maintenance") || Contains(text, "service")
  {
    assert Rules[13].fragments == ["maintenance", "service"];
  }

  /** When the maintenance rule decides, it fires and the support rule does not. */
  lemma MaintenanceFirst(text: string)
    requires FirstMatch(Rules, text) == Maintenance
    ensures Matches(Rules[13], text) && !Matches(Rules[4], text)
  {
    RulesDistinct();
    assert Rules[13].template == Maintenance;
    FirstMatchIff(Rules, text, 13);
  }

  /** The maintenance response needs "maintenance" itself: its other fragment, "service",
      always fires the support rule first. */
  lemma MaintenanceNeedsKeyword(message: string)
    requires Classify(message) == Maintenance
    ensures Contains(Lower(message), "maintenance")
    ensures !Contains(Lower(message), "service")
  {
    var text := Lower(message);
    MaintenanceFirst(text);
    MaintenanceRuleFires(text);
    if Contains(text, "service") {
      SupportRuleFires(text);
    }
  }
}
